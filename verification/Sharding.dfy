// Every risk shard has a balance store of its own. Together the shards do what one
// store for all users would do: stage by stage, over runs of the core, and in every
// interleaving of the pipeline.
module Sharding {
  import opened Orders
  import opened Ledger
  import opened Shards
  import opened Pipeline
  import opened CoreRuns
  import QuoteMath

  // The balances of one shard's users are the same in both stores.
  ghost predicate Agree(n: nat, i: nat, a: Store, b: Store)
    requires n > 0
  {
    forall key: Key :: Owns(n, i, key.user) ==> Get(a, key) == Get(b, key)
  }

  // The balances of all other users are the same in both stores.
  ghost predicate Elsewhere(n: nat, i: nat, a: Store, b: Store)
    requires n > 0
  {
    forall key: Key :: !Owns(n, i, key.user) ==> Get(a, key) == Get(b, key)
  }

  // An operation of shard i on its own store a and on the common store b.
  ghost predicate Together(n: nat, i: nat, b: Store, after: Store, shared: Store)
    requires n > 0
  {
    Agree(n, i, after, shared) && Elsewhere(n, i, b, shared)
  }

  // One store per shard, against one store for all.
  ghost predicate Divided(n: nat, stores: seq<Store>, s: Store)
    requires n > 0
  {
    |stores| == n && forall i :: 0 <= i < n ==> Agree(n, i, stores[i], s)
  }

  lemma DividedStep(n: nat, stores: seq<Store>, s: Store, i: nat, after: Store, shared: Store)
    requires n > 0 && Divided(n, stores, s) && i < n && Together(n, i, s, after, shared)
    ensures Divided(n, stores[i := after], shared)
  {
    var now := stores[i := after];
    forall j | 0 <= j < n
      ensures Agree(n, j, now[j], shared)
    {
      if j != i {
        assert Agree(n, j, stores[j], s);
        forall key: Key | Owns(n, j, key.user)
          ensures Get(now[j], key) == Get(shared, key)
        {
          assert !Owns(n, i, key.user);
        }
      }
    }
  }

  // --- Operations of one shard --------------------------------------------------------

  lemma Updates(n: nat, i: nat, a: Store, b: Store, k: Key, v: Balance)
    requires n > 0 && Agree(n, i, a, b) && Owns(n, i, k.user)
    ensures Together(n, i, b, a[k := v], b[k := v])
  {
  }

  lemma Locks(n: nat, i: nat, a: Store, b: Store, k: Key, amount: nat)
    requires n > 0 && Agree(n, i, a, b) && Owns(n, i, k.user)
    ensures var p, q := LockFunds(a, k, amount), LockFunds(b, k, amount);
            p.result == q.result && Together(n, i, b, p.store, q.store)
  {
    Updates(n, i, a, b, k, LockFunds(b, k, amount).store[k]);
  }

  lemma Unlocks(n: nat, i: nat, a: Store, b: Store, k: Key, amount: nat)
    requires n > 0 && Agree(n, i, a, b) && Owns(n, i, k.user)
    ensures var p, q := UnlockFunds(a, k, amount), UnlockFunds(b, k, amount);
            p.result == q.result && Together(n, i, b, p.store, q.store)
  {
    Updates(n, i, a, b, k, UnlockFunds(b, k, amount).store[k]);
  }

  lemma Adds(n: nat, i: nat, a: Store, b: Store, k: Key, amount: nat)
    requires n > 0 && Agree(n, i, a, b) && Owns(n, i, k.user)
    ensures var p, q := AddFunds(a, k, amount), AddFunds(b, k, amount);
            p.result == q.result && Together(n, i, b, p.store, q.store)
  {
    Updates(n, i, a, b, k, AddFunds(b, k, amount).store[k]);
  }

  lemma Subtracts(n: nat, i: nat, a: Store, b: Store, k: Key, amount: nat)
    requires n > 0 && Agree(n, i, a, b) && Owns(n, i, k.user)
    ensures var p, q := SubtractFunds(a, k, amount), SubtractFunds(b, k, amount);
            p.result == q.result && Together(n, i, b, p.store, q.store)
  {
    Updates(n, i, a, b, k, SubtractFunds(b, k, amount).store[k]);
  }

  lemma SubtractsLocked(n: nat, i: nat, a: Store, b: Store, k: Key, amount: nat)
    requires n > 0 && Agree(n, i, a, b) && Owns(n, i, k.user)
    ensures var p, q := SubtractLockedFunds(a, k, amount), SubtractLockedFunds(b, k, amount);
            p.result == q.result && Together(n, i, b, p.store, q.store)
  {
    Updates(n, i, a, b, k, SubtractLockedFunds(b, k, amount).store[k]);
  }

  // Two operations of one shard after each other.
  lemma Chained(n: nat, i: nat, b: Store, mid: Store, after: Store, shared: Store)
    requires n > 0 && Elsewhere(n, i, b, mid) && Together(n, i, mid, after, shared)
    ensures Together(n, i, b, after, shared)
  {
    forall key: Key | !Owns(n, i, key.user)
      ensures Get(b, key) == Get(shared, key)
    {
      assert Get(b, key) == Get(mid, key);
    }
  }

  lemma PaysAndCollects(n: nat, i: nat, a: Store, b: Store, t: Terms)
    requires n > 0 && Agree(n, i, a, b) && Owns(n, i, t.give.user) && t.get.user == t.give.user
    ensures var p, q := SubtractLockedFunds(a, t.give, t.giveAmount), SubtractLockedFunds(b, t.give, t.giveAmount);
            var x, y := AddFunds(p.store, t.get, Net(t.gross, t.fee)), AddFunds(q.store, t.get, Net(t.gross, t.fee));
            && p.result == q.result && x.result == y.result
            && Together(n, i, b, p.store, q.store) && Together(n, i, b, x.store, y.store)
  {
    var p, q := SubtractLockedFunds(a, t.give, t.giveAmount), SubtractLockedFunds(b, t.give, t.giveAmount);
    SubtractsLocked(n, i, a, b, t.give, t.giveAmount);
    Adds(n, i, p.store, q.store, t.get, Net(t.gross, t.fee));
    Chained(n, i, b, q.store, AddFunds(p.store, t.get, Net(t.gross, t.fee)).store,
         AddFunds(q.store, t.get, Net(t.gross, t.fee)).store);
  }

  lemma TradeTogether(n: nat, i: nat, a: Store, b: Store, spec: QuoteMath.Spec, user: nat, market: nat, side: Side,
               e: TradeEvent, limit: Option<nat>)
    requires n > 0 && Agree(n, i, a, b) && Owns(n, i, user)
    ensures var p := SettleTrade(a, spec, user, market, side, e, limit);
            var q := SettleTrade(b, spec, user, market, side, e, limit);
            p.result == q.result && Together(n, i, b, p.store, q.store)
  {
    var t := TradeTerms(spec, user, market, side, e);
    if HasRefund(user, side, e, limit) {
      var k, refund := Key(user, QuoteMath.QuoteAsset(market)), Refund(spec, user, side, e, limit);
      var p, q := UnlockFunds(a, k, refund), UnlockFunds(b, k, refund);
      Unlocks(n, i, a, b, k, refund);
      if q.result.Ok? {
        PaysAndCollects(n, i, p.store, q.store, t);
        Chained(n, i, b, q.store, SettleTrade(a, spec, user, market, side, e, limit).store,
             SettleTrade(b, spec, user, market, side, e, limit).store);
      }
    } else {
      PaysAndCollects(n, i, a, b, t);
    }
  }

  lemma LegTogether(n: nat, i: nat, a: Store, b: Store, specs: seq<QuoteMath.Spec>, c: Command, leg: nat)
    requires n > 0 && Agree(n, i, a, b) && leg < LegCount(c) && Owns(n, i, LegUser(c, leg))
    ensures var p, q := SettleLeg(a, specs, c, leg), SettleLeg(b, specs, c, leg);
            p.result == q.result && Together(n, i, b, p.store, q.store)
  {
    var e := c.events[leg / 2];
    match FindSpec(specs, c.marketId) {
      case None =>
      case Some(spec) =>
        if leg % 2 == 0 {
          TradeTogether(n, i, a, b, spec, e.makerUser, c.marketId, c.side.Opposite(), e, None);
        } else {
          TradeTogether(n, i, a, b, spec, c.userId, c.marketId, c.side, e, Some(c.price));
        }
    }
  }

  lemma ReleaseTogether(n: nat, i: nat, a: Store, b: Store, specs: seq<QuoteMath.Spec>, c: Command)
    requires n > 0 && Agree(n, i, a, b) && Owns(n, i, c.userId)
    ensures var p, q := Release(a, specs, c), Release(b, specs, c);
            p.result == q.result && Together(n, i, b, p.store, q.store)
  {
    match FindSpec(specs, c.marketId) {
      case None =>
      case Some(spec) =>
        Unlocks(n, i, a, b, Key(c.userId, HeldAsset(c.marketId, c.side)), Held(spec, c.side, c.price, c.size));
    }
  }

  // --- The two stages of one shard ----------------------------------------------------

  // On its own store the first stage comes to the same command, and changes its own
  // users' balances as it would those of the common store.
  lemma PreProcessTogether(n: nat, i: nat, a: Store, b: Store, specs: seq<QuoteMath.Spec>, c: Command, ask: nat)
    requires n > 0 && Agree(n, i, a, b) && Owns(n, i, c.userId)
    ensures PreProcess(a, specs, c, ask).1 == PreProcess(b, specs, c, ask).1
    ensures Together(n, i, b, PreProcess(a, specs, c, ask).0, PreProcess(b, specs, c, ask).0)
  {
    match c.kind {
      case PlaceOrder => ReserveTogether(n, i, a, b, specs, c, ask);
      case DepositFunds => Adds(n, i, a, b, FundsKey(c), c.size);
      case WithdrawFunds => Subtracts(n, i, a, b, FundsKey(c), c.size);
      case CancelOrder =>
    }
  }

  lemma ReserveTogether(n: nat, i: nat, a: Store, b: Store, specs: seq<QuoteMath.Spec>, c: Command, ask: nat)
    requires n > 0 && Agree(n, i, a, b) && Owns(n, i, c.userId)
    ensures var p, q := Reserve(a, specs, c, ask), Reserve(b, specs, c, ask);
            p.cmd == q.cmd && p.result == q.result && Together(n, i, b, p.store, q.store)
  {
    match ReservedAt(specs, c, ask) {
      case None =>
      case Some(price) =>
        var spec := FindSpec(specs, c.marketId).value;
        Locks(n, i, a, b, Key(c.userId, HeldAsset(c.marketId, c.side)), Held(spec, c.side, price, c.size));
    }
  }

  lemma {:induction false} WalkTogether(n: nat, i: nat, a: Store, b: Store, specs: seq<QuoteMath.Spec>, c: Command,
                                     from: nat)
    requires n > 0 && Agree(n, i, a, b) && from <= LegCount(c)
    ensures Together(n, i, b, Walk(a, specs, n, i, c, from), Walk(b, specs, n, i, c, from))
    decreases LegCount(c) - from
  {
    if from < LegCount(c) {
      if Owns(n, i, LegUser(c, from)) {
        LegTogether(n, i, a, b, specs, c, from);
        var x, y := SettleLeg(a, specs, c, from).store, SettleLeg(b, specs, c, from).store;
        WalkTogether(n, i, x, y, specs, c, from + 1);
        Chained(n, i, b, y, Walk(x, specs, n, i, c, from + 1), Walk(y, specs, n, i, c, from + 1));
      } else {
        WalkTogether(n, i, a, b, specs, c, from + 1);
      }
    }
  }

  // So does the second stage.
  lemma PostProcessTogether(n: nat, i: nat, a: Store, b: Store, specs: seq<QuoteMath.Spec>, c: Command)
    requires n > 0 && Agree(n, i, a, b)
    ensures Together(n, i, b, PostProcess(a, specs, n, i, c), PostProcess(b, specs, n, i, c))
  {
    if Settleable(c) {
      WalkTogether(n, i, a, b, specs, c, 0);
      var x, y := Walk(a, specs, n, i, c, 0), Walk(b, specs, n, i, c, 0);
      if Owns(n, i, c.userId) && ReleaseDue(c) {
        ReleaseTogether(n, i, x, y, specs, c);
        Chained(n, i, b, y, Release(x, specs, c).store, Release(y, specs, c).store);
      }
    }
  }

  // --- The core with one store per shard ----------------------------------------------

  function FirstStages(cfg: Config, stores: seq<Store>, c: Command, ask: nat, n: nat): (seq<Store>, Command)
    requires 0 < cfg.riskShards == |stores| && n <= cfg.riskShards
    ensures |FirstStages(cfg, stores, c, ask, n).0| == |stores|
  {
    if n == 0 then (stores, c)
    else
      var (t, d) := FirstStages(cfg, stores, c, ask, n - 1);
      if Owns(cfg.riskShards, n - 1, d.userId) then
        var (own, e) := PreProcess(t[n - 1], cfg.specs, d, ask);
        (t[n - 1 := own], e)
      else (t, d)
  }

  function SecondStages(cfg: Config, stores: seq<Store>, c: Command, n: nat): seq<Store>
    requires 0 < cfg.riskShards == |stores| && n <= cfg.riskShards
    ensures |SecondStages(cfg, stores, c, n)| == |stores|
  {
    if n == 0 then stores
    else
      var t := SecondStages(cfg, stores, c, n - 1);
      t[n - 1 := PostProcess(t[n - 1], cfg.specs, cfg.riskShards, n - 1, c)]
  }

  lemma {:induction false} FirstStageDivided(cfg: Config, stores: seq<Store>, s: Store, c: Command, ask: nat, n: nat)
    requires 0 < cfg.riskShards && n <= cfg.riskShards && Divided(cfg.riskShards, stores, s)
    ensures FirstStages(cfg, stores, c, ask, n).1 == FirstStage(cfg, s, c, ask, n).1
    ensures Divided(cfg.riskShards, FirstStages(cfg, stores, c, ask, n).0, FirstStage(cfg, s, c, ask, n).0)
  {
    if n > 0 {
      FirstStageDivided(cfg, stores, s, c, ask, n - 1);
      var (t, d) := FirstStages(cfg, stores, c, ask, n - 1);
      var (shared, _) := FirstStage(cfg, s, c, ask, n - 1);
      if Owns(cfg.riskShards, n - 1, d.userId) {
        PreProcessTogether(cfg.riskShards, n - 1, t[n - 1], shared, cfg.specs, d, ask);
        DividedStep(cfg.riskShards, t, shared, n - 1, PreProcess(t[n - 1], cfg.specs, d, ask).0,
                    PreProcess(shared, cfg.specs, d, ask).0);
      }
    }
  }

  lemma {:induction false} SecondStageDivided(cfg: Config, stores: seq<Store>, s: Store, c: Command, n: nat)
    requires 0 < cfg.riskShards && n <= cfg.riskShards && Divided(cfg.riskShards, stores, s)
    ensures Divided(cfg.riskShards, SecondStages(cfg, stores, c, n), SecondStage(cfg, s, c, n))
  {
    if n > 0 {
      SecondStageDivided(cfg, stores, s, c, n - 1);
      var t, shared := SecondStages(cfg, stores, c, n - 1), SecondStage(cfg, s, c, n - 1);
      PostProcessTogether(cfg.riskShards, n - 1, t[n - 1], shared, cfg.specs, c);
      DividedStep(cfg.riskShards, t, shared, n - 1, PostProcess(t[n - 1], cfg.specs, cfg.riskShards, n - 1, c),
                  PostProcess(shared, cfg.specs, cfg.riskShards, n - 1, c));
    }
  }

  // One command through a core whose shards have stores of their own.
  function ShardedStep(cfg: Config, core: Core, stores: seq<Store>, c: Command): (Core, seq<Store>)
    requires 0 < cfg.riskShards == |stores|
    ensures |ShardedStep(cfg, core, stores, c).1| == |stores|
  {
    var (first, d) := FirstStages(cfg, stores, c, CachedAsk(cfg, core, c.marketId), cfg.riskShards);
    var (matched, e) := MatchStage(cfg, core, d);
    (matched, SecondStages(cfg, first, e, cfg.riskShards))
  }

  function ShardedSteps(cfg: Config, core: Core, stores: seq<Store>, cmds: seq<Command>): (Core, seq<Store>)
    requires 0 < cfg.riskShards == |stores|
    decreases |cmds|
  {
    if cmds == [] then (core, stores)
    else
      var (next, after) := ShardedStep(cfg, core, stores, cmds[0]);
      ShardedSteps(cfg, next, after, cmds[1..])
  }

  // The same books and cached prices, and the balances divided among the shards.
  ghost predicate Stands(cfg: Config, core: Core, sharded: Core, stores: seq<Store>) {
    && cfg.riskShards > 0 && Divided(cfg.riskShards, stores, core.store)
    && sharded.books == core.books && sharded.prices == core.prices
  }

  lemma StepDivided(cfg: Config, core: Core, sharded: Core, stores: seq<Store>, c: Command)
    requires Stands(cfg, core, sharded, stores)
    ensures var (next, after) := ShardedStep(cfg, sharded, stores, c);
            Stands(cfg, Step(cfg, core, c), next, after)
  {
    var ask, n := CachedAsk(cfg, core, c.marketId), cfg.riskShards;
    FirstStageDivided(cfg, stores, core.store, c, ask, n);
    var (s, d) := FirstStage(cfg, core.store, c, ask, n);
    var (matched, e) := MatchStage(cfg, core.(store := s), d);
    assert matched.store == s;
    SecondStageDivided(cfg, FirstStages(cfg, stores, c, ask, n).0, s, e, n);
  }

  // Over any run the sharded core keeps the books, the cached prices and every
  // balance of the core with one store.
  lemma {:induction false} StepsDivided(cfg: Config, core: Core, sharded: Core, stores: seq<Store>,
                                        cmds: seq<Command>)
    requires Stands(cfg, core, sharded, stores)
    ensures var (last, after) := ShardedSteps(cfg, sharded, stores, cmds);
            Stands(cfg, Steps(cfg, core, cmds), last, after)
    decreases |cmds|
  {
    if cmds != [] {
      StepDivided(cfg, core, sharded, stores, cmds[0]);
      var (next, after) := ShardedStep(cfg, sharded, stores, cmds[0]);
      StepsDivided(cfg, Step(cfg, core, cmds[0]), next, after, cmds[1..]);
    }
  }

  // --- The pipeline with one store per shard ------------------------------------------

  // A risk shard acts on its own store; nobody else touches balances.
  ghost function ShardedApply(cfg: Config, s: State, stores: seq<Store>, a: Action): (State, seq<Store>)
    requires Ready(cfg, s, a) && |stores| == cfg.riskShards
    ensures |ShardedApply(cfg, s, stores, a).1| == |stores|
  {
    match a
    case Admit(i, _) => var t := Apply(cfg, s.(store := stores[i]), a); (t.(store := map[]), stores[i := t.store])
    case Settle(i) => var t := Apply(cfg, s.(store := stores[i]), a); (t.(store := map[]), stores[i := t.store])
    case _ => (Apply(cfg, s, a).(store := map[]), stores)
  }

  // The state without its store, and the store divided among the shards.
  ghost predicate Represents(cfg: Config, s: State, sharded: State, stores: seq<Store>) {
    && cfg.riskShards > 0 && Divided(cfg.riskShards, stores, s.store)
    && sharded == s.(store := map[])
  }

  lemma AdmitDivided(cfg: Config, s: State, own: Store, i: nat, ask: nat)
    requires Laid(cfg, s) && i < cfg.riskShards && s.r1[i] < |s.slots| && Agree(cfg.riskShards, i, own, s.store)
    ensures var t, u := ApplyAdmit(cfg, s, i, ask), ApplyAdmit(cfg, s.(store := own), i, ask);
            u.(store := map[]) == t.(store := map[]) && Together(cfg.riskShards, i, s.store, u.store, t.store)
  {
    var c := s.slots[s.r1[i]];
    if Owns(cfg.riskShards, i, c.userId) {
      PreProcessTogether(cfg.riskShards, i, own, s.store, cfg.specs, c, ask);
    }
  }

  lemma SettleDivided(cfg: Config, s: State, own: Store, i: nat)
    requires Laid(cfg, s) && i < cfg.riskShards && s.r2[i] < |s.slots| && Agree(cfg.riskShards, i, own, s.store)
    ensures var t, u := ApplySettle(cfg, s, i), ApplySettle(cfg, s.(store := own), i);
            u.(store := map[]) == t.(store := map[]) && Together(cfg.riskShards, i, s.store, u.store, t.store)
  {
    var c, l := s.slots[s.r2[i]], s.leg[i];
    if Settleable(c) {
      if l < LegCount(c) && Owns(cfg.riskShards, i, LegUser(c, l)) {
        LegTogether(cfg.riskShards, i, own, s.store, cfg.specs, c, l);
      } else if l >= LegCount(c) && Owns(cfg.riskShards, i, c.userId) && ReleaseDue(c) {
        ReleaseTogether(cfg.riskShards, i, own, s.store, cfg.specs, c);
      }
    }
  }

  lemma TradeDivided(cfg: Config, s: State, j: nat)
    requires Laid(cfg, s) && j < cfg.matchShards && s.mt[j] < |s.slots|
    ensures ApplyTrade(cfg, s, j).store == s.store
    ensures ApplyTrade(cfg, s.(store := map[]), j) == ApplyTrade(cfg, s, j).(store := map[])
  {
  }

  lemma OtherDivided(cfg: Config, s: State, a: Action)
    requires Ready(cfg, s, a) && !a.Admit? && !a.Settle?
    ensures Apply(cfg, s, a).store == s.store
    ensures Apply(cfg, s.(store := map[]), a).(store := map[]) == Apply(cfg, s, a).(store := map[])
  {
    match a {
      case Trade(j) => TradeDivided(cfg, s, j);
      case _ =>
    }
  }

  lemma ApplyDivided(cfg: Config, s: State, sharded: State, stores: seq<Store>, a: Action)
    requires Represents(cfg, s, sharded, stores) && Ready(cfg, s, a)
    ensures var (t, after) := ShardedApply(cfg, sharded, stores, a);
            Represents(cfg, Apply(cfg, s, a), t, after)
  {
    match a {
      case Admit(i, ask) =>
        AdmitDivided(cfg, s, stores[i], i, ask);
        assert sharded.(store := stores[i]) == s.(store := stores[i]);
        DividedStep(cfg.riskShards, stores, s.store, i, ApplyAdmit(cfg, s.(store := stores[i]), i, ask).store,
                    ApplyAdmit(cfg, s, i, ask).store);
      case Settle(i) =>
        SettleDivided(cfg, s, stores[i], i);
        assert sharded.(store := stores[i]) == s.(store := stores[i]);
        DividedStep(cfg.riskShards, stores, s.store, i, ApplySettle(cfg, s.(store := stores[i]), i).store,
                    ApplySettle(cfg, s, i).store);
      case _ => OtherDivided(cfg, s, a);
    }
  }

  ghost predicate ShardedRun(cfg: Config, s: State, stores: seq<Store>, actions: seq<Action>)
    requires |stores| == cfg.riskShards
    decreases |actions|
  {
    actions == []
    || (Ready(cfg, s, actions[0])
        && var (next, after) := ShardedApply(cfg, s, stores, actions[0]);
           ShardedRun(cfg, next, after, actions[1..]))
  }

  ghost function ShardedAfter(cfg: Config, s: State, stores: seq<Store>, actions: seq<Action>): (State, seq<Store>)
    requires |stores| == cfg.riskShards && ShardedRun(cfg, s, stores, actions)
    decreases |actions|
  {
    if actions == [] then (s, stores)
    else
      var (next, after) := ShardedApply(cfg, s, stores, actions[0]);
      ShardedAfter(cfg, next, after, actions[1..])
  }

  // In every interleaving the shards with stores of their own take every command,
  // cursor and book where the common store takes them, and each user's balances are
  // those in the store of the user's shard.
  lemma {:induction false} RunDivided(cfg: Config, s: State, sharded: State, stores: seq<Store>, actions: seq<Action>)
    requires Represents(cfg, s, sharded, stores) && Possible(cfg, s, actions)
    ensures ShardedRun(cfg, sharded, stores, actions)
    ensures var (last, after) := ShardedAfter(cfg, sharded, stores, actions);
            Represents(cfg, After(cfg, s, actions), last, after)
    decreases |actions|
  {
    if actions != [] {
      ApplyDivided(cfg, s, sharded, stores, actions[0]);
      var (next, after) := ShardedApply(cfg, sharded, stores, actions[0]);
      RunDivided(cfg, Apply(cfg, s, actions[0]), next, after, actions[1..]);
    }
  }

  // From the start, with all stores empty.
  lemma ReachableDivided(cfg: Config, actions: seq<Action>)
    requires GoodConfig(cfg) && Possible(cfg, Initial(cfg), actions)
    ensures var empty := seq(cfg.riskShards, _ => map[]);
            && ShardedRun(cfg, Initial(cfg), empty, actions)
            && var (last, after) := ShardedAfter(cfg, Initial(cfg), empty, actions);
               Represents(cfg, After(cfg, Initial(cfg), actions), last, after)
  {
    RunDivided(cfg, Initial(cfg), Initial(cfg), seq(cfg.riskShards, _ => map[]), actions);
  }
}
