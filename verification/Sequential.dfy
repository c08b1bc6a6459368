// The core one command at a time is one interleaving of the pipeline: from a
// state in which all threads stand behind the last command, every new command
// can run through all of them, and leaves the books and balances of one core
// step.
module Sequential {
  import opened Orders
  import opened Ledger
  import opened Shards
  import opened Pipeline
  import PipelineShape
  import opened CoreRuns

  ghost predicate Allowed(cfg: Config, s: State, actions: seq<Action>)
    decreases |actions|
  {
    actions == [] || (Enabled(cfg, s, actions[0]) && Allowed(cfg, Apply(cfg, s, actions[0]), actions[1..]))
  }

  ghost function Reached(cfg: Config, s: State, actions: seq<Action>): State
    requires Allowed(cfg, s, actions)
    decreases |actions|
  {
    if actions == [] then s else Reached(cfg, Apply(cfg, s, actions[0]), actions[1..])
  }

  lemma {:induction false} ReachedAppend(cfg: Config, s: State, a: seq<Action>, b: seq<Action>)
    requires Allowed(cfg, s, a) && Allowed(cfg, Reached(cfg, s, a), b)
    ensures Allowed(cfg, s, a + b) && Reached(cfg, s, a + b) == Reached(cfg, Reached(cfg, s, a), b)
    decreases |a|
  {
    if a == [] {
      assert a + b == b;
    } else {
      assert (a + b)[0] == a[0] && (a + b)[1..] == a[1..] + b;
      ReachedAppend(cfg, Apply(cfg, s, a[0]), a[1..], b);
    }
  }

  lemma ReachedOne(cfg: Config, s: State, a: Action)
    requires Enabled(cfg, s, a)
    ensures Allowed(cfg, s, [a]) && Reached(cfg, s, [a]) == Apply(cfg, s, a)
  {
    assert [a][1..] == [];
    assert Allowed(cfg, Apply(cfg, s, a), []);
  }

  // One more step at the end of a run.
  lemma ReachedThen(cfg: Config, s: State, actions: seq<Action>, a: Action)
    requires Allowed(cfg, s, actions) && Enabled(cfg, Reached(cfg, s, actions), a)
    ensures Allowed(cfg, s, actions + [a])
    ensures Reached(cfg, s, actions + [a]) == Apply(cfg, Reached(cfg, s, actions), a)
  {
    ReachedOne(cfg, Reached(cfg, s, actions), a);
    ReachedAppend(cfg, s, actions, [a]);
  }

  // The first m cursors are past slot n, the others at it.
  predicate Passed(cursor: seq<nat>, n: nat, m: nat) {
    forall i :: 0 <= i < |cursor| ==> cursor[i] == if i < m then n + 1 else n
  }

  // All threads stand at the end of the log.
  predicate AtEnd(cfg: Config, s: State) {
    var n := |s.slots|;
    && Laid(cfg, s) && s.journaled == n
    && Passed(s.r1, n, 0) && Passed(s.mt, n, 0) && Passed(s.r2, n, 0)
    && forall i :: 0 <= i < |s.leg| ==> s.leg[i] == 0
  }

  // The last command is c, and the stages before it stand as told.
  predicate Inside(cfg: Config, s: State, c: Command, admitted: nat, matched: nat, settled: nat) {
    && Laid(cfg, s) && 0 < |s.slots| == s.journaled
    && var n := |s.slots| - 1;
       && s.slots[n] == c
       && Passed(s.r1, n, admitted) && Passed(s.mt, n, matched) && Passed(s.r2, n, settled)
       && forall i :: 0 <= i < |s.leg| ==> s.leg[i] == 0
  }

  lemma Enters(cfg: Config, s: State, c: Command, id: nat, timestamp: nat) returns (actions: seq<Action>)
    requires AtEnd(cfg, s) && Incoming(c) && s.bound <= id
    ensures Allowed(cfg, s, actions)
    ensures var t := Reached(cfg, s, actions);
            && Inside(cfg, t, Stamped(c, id, timestamp), 0, 0, 0)
            && t.books == s.books && t.store == s.store && s.bound <= t.bound <= id + 1
  {
    actions := [Publish(c)];
    ReachedOne(cfg, s, Publish(c));
    ReachedThen(cfg, s, actions, Journal(id, timestamp));
    actions := actions + [Journal(id, timestamp)];
  }

  // --- First stage -------------------------------------------------------------------

  // The first m shards have had the last command, starting from the given store.
  predicate AtShard(cfg: Config, s: State, c: Command, ask: nat, m: nat, start: State)
    requires cfg.riskShards > 0
  {
    var (store, d) := FirstStage(cfg, start.store, c, ask, m);
    Inside(cfg, s, d, m, 0, 0) && s.store == store && s.books == start.books && s.bound == start.bound
  }

  lemma AdmitOne(cfg: Config, s: State, c: Command, m: nat, ask: nat)
    requires Inside(cfg, s, c, m, 0, 0) && m < cfg.riskShards
    ensures Enabled(cfg, s, Admit(m, ask))
    ensures var t := Apply(cfg, s, Admit(m, ask));
            var (store, d) :=
              if Owns(cfg.riskShards, m, c.userId) then PreProcess(s.store, cfg.specs, c, ask) else (s.store, c);
            Inside(cfg, t, d, m + 1, 0, 0) && t.store == store && t.books == s.books && t.bound == s.bound
  {
  }

  lemma AdmitNext(cfg: Config, s: State, c: Command, ask: nat, m: nat, start: State)
    requires m < cfg.riskShards && AtShard(cfg, s, c, ask, m, start)
    ensures Enabled(cfg, s, Admit(m, ask)) && AtShard(cfg, Apply(cfg, s, Admit(m, ask)), c, ask, m + 1, start)
  {
    AdmitOne(cfg, s, FirstStage(cfg, start.store, c, ask, m).1, m, ask);
  }

  lemma {:induction false} Admits(cfg: Config, s: State, c: Command, m: nat, ask: nat) returns (actions: seq<Action>)
    requires Inside(cfg, s, c, 0, 0, 0) && m <= cfg.riskShards
    ensures Allowed(cfg, s, actions) && AtShard(cfg, Reached(cfg, s, actions), c, ask, m, s)
  {
    if m == 0 {
      actions := [];
    } else {
      actions := Admits(cfg, s, c, m - 1, ask);
      AdmitNext(cfg, Reached(cfg, s, actions), c, ask, m - 1, s);
      ReachedThen(cfg, s, actions, Admit(m - 1, ask));
      actions := actions + [Admit(m - 1, ask)];
    }
  }

  // --- Matching ------------------------------------------------------------------------

  // Books and command after the routers in front of m.
  function Routed(cfg: Config, core: Core, c: Command, m: nat): (Core, Command)
    requires cfg.matchShards > 0
  {
    if c.marketId % cfg.matchShards < m then MatchStage(cfg, core, c) else (core, c)
  }

  lemma MatchStageFrame(cfg: Config, core: Core, c: Command)
    ensures var (m, d) := MatchStage(cfg, core, c); m.store == core.store && d.marketId == c.marketId
  {
  }

  // The first m routers have had the last command.
  predicate AtRouter(cfg: Config, s: State, core: Core, c: Command, m: nat, start: State)
    requires cfg.matchShards > 0
  {
    var (x, d) := Routed(cfg, core, c, m);
    && Inside(cfg, s, d, cfg.riskShards, m, 0)
    && s.books == x.books && s.store == start.store && s.bound == start.bound
  }

  lemma TradeOne(cfg: Config, s: State, core: Core, c: Command, m: nat, start: State)
    requires PowerOfTwo(cfg.matchShards) && Fitted(cfg, core) && m < cfg.matchShards
    requires AtRouter(cfg, s, core, c, m, start)
    ensures Enabled(cfg, s, Trade(m)) && AtRouter(cfg, Apply(cfg, s, Trade(m)), core, c, m + 1, start)
  {
    MatchStageFrame(cfg, core, c);
    OneOwner(cfg.matchShards, c.marketId);
    PipelineShape.FindSpecIndex(cfg.specs, c.marketId);
    var n := |s.slots| - 1;
    var t := Apply(cfg, s, Trade(m));
    PipelineShape.TradeMoves(cfg, s, m);
    assert Passed(t.mt, n, m + 1);
  }

  lemma {:induction false} RunTrades(cfg: Config, s: State, core: Core, c: Command, m: nat)
    returns (actions: seq<Action>)
    requires PowerOfTwo(cfg.matchShards) && Fitted(cfg, core) && m <= cfg.matchShards
    requires Inside(cfg, s, c, cfg.riskShards, 0, 0) && s.books == core.books
    ensures Allowed(cfg, s, actions) && AtRouter(cfg, Reached(cfg, s, actions), core, c, m, s)
  {
    if m == 0 {
      actions := [];
    } else {
      actions := RunTrades(cfg, s, core, c, m - 1);
      TradeOne(cfg, Reached(cfg, s, actions), core, c, m - 1, s);
      ReachedThen(cfg, s, actions, Trade(m - 1));
      actions := actions + [Trade(m - 1)];
    }
  }

  // --- Second stage ----------------------------------------------------------------------

  // Settlement shard m is at leg l of the last command, the ones before it done.
  predicate Settling(cfg: Config, s: State, c: Command, m: nat, l: nat) {
    && Laid(cfg, s) && 0 < |s.slots| == s.journaled && m < cfg.riskShards
    && var n := |s.slots| - 1;
       && s.slots[n] == c && l <= LegCount(c)
       && Passed(s.r1, n, cfg.riskShards) && Passed(s.mt, n, cfg.matchShards) && Passed(s.r2, n, m)
       && forall i :: 0 <= i < |s.leg| ==> s.leg[i] == if i == m then l else 0
  }

  // What is left of a shard's second stage from leg l on.
  function WalkedFrom(cfg: Config, store: Store, c: Command, m: nat, l: nat): Store
    requires cfg.riskShards > 0 && l <= LegCount(c)
  {
    if !Settleable(c) then store
    else
      var walked := Walk(store, cfg.specs, cfg.riskShards, m, c, l);
      if Owns(cfg.riskShards, m, c.userId) && ReleaseDue(c) then Release(walked, cfg.specs, c).store else walked
  }

  // The step that ends the command for this shard.
  lemma SettleLast(cfg: Config, s: State, c: Command, m: nat, l: nat)
    requires Settling(cfg, s, c, m, l) && (!Settleable(c) || l == LegCount(c))
    ensures Enabled(cfg, s, Settle(m))
    ensures var t := Apply(cfg, s, Settle(m));
            && Inside(cfg, t, c, cfg.riskShards, cfg.matchShards, m + 1)
            && t.books == s.books && t.bound == s.bound && t.store == WalkedFrom(cfg, s.store, c, m, l)
  {
  }

  lemma WalkedNext(cfg: Config, store: Store, c: Command, m: nat, l: nat)
    requires cfg.riskShards > 0 && Settleable(c) && l < LegCount(c)
    ensures var next :=
              if Owns(cfg.riskShards, m, LegUser(c, l)) then SettleLeg(store, cfg.specs, c, l).store else store;
            WalkedFrom(cfg, next, c, m, l + 1) == WalkedFrom(cfg, store, c, m, l)
  {
  }

  lemma SettleNext(cfg: Config, s: State, c: Command, m: nat, l: nat)
    requires Settling(cfg, s, c, m, l) && Settleable(c) && l < LegCount(c)
    ensures Enabled(cfg, s, Settle(m))
    ensures var t := Apply(cfg, s, Settle(m));
            && Settling(cfg, t, c, m, l + 1)
            && t.books == s.books && t.bound == s.bound
            && t.store == (if !Owns(cfg.riskShards, m, LegUser(c, l)) then s.store
                           else SettleLeg(s.store, cfg.specs, c, l).store)
  {
    PipelineShape.SettleMoves(cfg, s, m);
  }

  // One leg, and what then is left of the shard's second stage.
  lemma SettlesLeg(cfg: Config, s: State, c: Command, m: nat, l: nat) returns (t: State)
    requires Settling(cfg, s, c, m, l) && Settleable(c) && l < LegCount(c)
    ensures Enabled(cfg, s, Settle(m)) && t == Apply(cfg, s, Settle(m))
    ensures Settling(cfg, t, c, m, l + 1) && t.books == s.books && t.bound == s.bound
    ensures WalkedFrom(cfg, t.store, c, m, l + 1) == WalkedFrom(cfg, s.store, c, m, l)
  {
    SettleNext(cfg, s, c, m, l);
    WalkedNext(cfg, s.store, c, m, l);
    t := Apply(cfg, s, Settle(m));
  }

  // Shard m is done with the last command, and has left this store.
  predicate Settled(cfg: Config, t: State, c: Command, m: nat, store: Store, start: State) {
    && Inside(cfg, t, c, cfg.riskShards, cfg.matchShards, m + 1)
    && t.books == start.books && t.bound == start.bound && t.store == store
  }

  lemma {:induction false} SettlesOne(cfg: Config, s: State, c: Command, m: nat, l: nat) returns (actions: seq<Action>)
    requires Settling(cfg, s, c, m, l)
    ensures Allowed(cfg, s, actions)
    ensures Settled(cfg, Reached(cfg, s, actions), c, m, WalkedFrom(cfg, s.store, c, m, l), s)
    decreases LegCount(c) - l
  {
    if !Settleable(c) || l == LegCount(c) {
      SettleLast(cfg, s, c, m, l);
      actions := [Settle(m)];
      ReachedOne(cfg, s, Settle(m));
    } else {
      var t := SettlesLeg(cfg, s, c, m, l);
      var rest := SettlesOne(cfg, t, c, m, l + 1);
      ReachedOne(cfg, s, Settle(m));
      ReachedAppend(cfg, s, [Settle(m)], rest);
      actions := [Settle(m)] + rest;
    }
  }

  lemma {:induction false} Settles(cfg: Config, s: State, c: Command, m: nat) returns (actions: seq<Action>)
    requires Inside(cfg, s, c, cfg.riskShards, cfg.matchShards, 0) && m <= cfg.riskShards
    ensures Allowed(cfg, s, actions)
    ensures var t := Reached(cfg, s, actions);
            && Inside(cfg, t, c, cfg.riskShards, cfg.matchShards, m)
            && t.books == s.books && t.bound == s.bound && t.store == SecondStage(cfg, s.store, c, m)
  {
    if m == 0 {
      actions := [];
    } else {
      actions := Settles(cfg, s, c, m - 1);
      var middle := Reached(cfg, s, actions);
      var more := SettlesOne(cfg, middle, c, m - 1, 0);
      ReachedAppend(cfg, s, actions, more);
      actions := actions + more;
    }
  }

  // --- A whole command ---------------------------------------------------------------------

  lemma StagesCompose(cfg: Config, core: Core, d: Command, e: Command, s: State, t: State, u: State)
    requires PowerOfTwo(cfg.riskShards) && PowerOfTwo(cfg.matchShards) && Fitted(cfg, core)
    requires (s.store, e) == FirstStage(cfg, core.store, d, CachedAsk(cfg, core, d.marketId), cfg.riskShards)
    requires var (x, f) := MatchStage(cfg, core.(store := s.store), e);
             t.books == x.books && t.store == s.store
             && u.books == t.books && u.store == SecondStage(cfg, t.store, f, cfg.riskShards)
    ensures u.books == Step(cfg, core, d).books && u.store == Step(cfg, core, d).store
  {
    MatchStageFrame(cfg, core.(store := s.store), e);
  }

  // A command that meets an idle pipeline can run through it alone, and does then
  // what one core step does.
  lemma OneCommand(cfg: Config, s: State, core: Core, c: Command, id: nat, timestamp: nat)
    returns (actions: seq<Action>)
    requires PowerOfTwo(cfg.riskShards) && PowerOfTwo(cfg.matchShards) && AtEnd(cfg, s)
    requires Fitted(cfg, core) && core.books == s.books && core.store == s.store
    requires Incoming(c) && s.bound <= id
    ensures Allowed(cfg, s, actions)
    ensures var t, next := Reached(cfg, s, actions), Step(cfg, core, Stamped(c, id, timestamp));
            AtEnd(cfg, t) && t.books == next.books && t.store == next.store && t.bound <= id + 1
  {
    var d, ask := Stamped(c, id, timestamp), CachedAsk(cfg, core, c.marketId);
    var a := Enters(cfg, s, c, id, timestamp);
    var s1 := Reached(cfg, s, a);
    var b := Admits(cfg, s1, d, cfg.riskShards, ask);
    var s2 := Reached(cfg, s1, b);
    ReachedAppend(cfg, s, a, b);
    var (store, e) := FirstStage(cfg, s1.store, d, ask, cfg.riskShards);
    var mid := core.(store := store);
    var k := RunTrades(cfg, s2, mid, e, cfg.matchShards);
    var s3 := Reached(cfg, s2, k);
    ReachedAppend(cfg, s, a + b, k);
    PipelineShape.HomeInRange(cfg.matchShards, e.marketId);
    var (x, f) := MatchStage(cfg, mid, e);
    var z := Settles(cfg, s3, f, cfg.riskShards);
    ReachedAppend(cfg, s, a + b + k, z);
    actions := a + b + k + z;
    StagesCompose(cfg, core, d, e, s2, s3, Reached(cfg, s3, z));
  }

  // --- Whole runs ----------------------------------------------------------------------------

  // Ids as the generator gives them and times as the clock does, one per command.
  predicate Stamps(cmds: seq<Command>, ids: seq<nat>, times: seq<nat>, bound: nat) {
    && |ids| == |times| == |cmds|
    && (forall i :: 0 <= i < |ids| ==> bound <= ids[i])
    && (forall i, j :: 0 <= i < j < |ids| ==> ids[i] < ids[j])
    && (forall c :: c in cmds ==> Incoming(c))
  }

  function AllStamped(cmds: seq<Command>, ids: seq<nat>, times: seq<nat>): seq<Command>
    requires |ids| == |times| == |cmds|
  {
    if cmds == [] then []
    else [Stamped(cmds[0], ids[0], times[0])] + AllStamped(cmds[1..], ids[1..], times[1..])
  }

  // Every run of the core is a run of the pipeline: some interleaving ends with
  // the same books and the same balances, and all threads idle.
  lemma {:induction false} CoreIsPipeline(cfg: Config, s: State, core: Core, cmds: seq<Command>, ids: seq<nat>,
                                          times: seq<nat>)
    returns (actions: seq<Action>)
    requires PowerOfTwo(cfg.riskShards) && PowerOfTwo(cfg.matchShards) && AtEnd(cfg, s)
    requires Fitted(cfg, core) && core.books == s.books && core.store == s.store
    requires Stamps(cmds, ids, times, s.bound)
    ensures Allowed(cfg, s, actions)
    ensures var t, last := Reached(cfg, s, actions), Steps(cfg, core, AllStamped(cmds, ids, times));
            AtEnd(cfg, t) && t.books == last.books && t.store == last.store
    decreases |cmds|
  {
    if cmds == [] {
      actions := [];
    } else {
      assert cmds[0] in cmds;
      var first := OneCommand(cfg, s, core, cmds[0], ids[0], times[0]);
      var t, next := Reached(cfg, s, first), Step(cfg, core, Stamped(cmds[0], ids[0], times[0]));
      StepFitted(cfg, core, Stamped(cmds[0], ids[0], times[0]));
      var rest := CoreIsPipeline(cfg, t, next, cmds[1..], ids[1..], times[1..]);
      ReachedAppend(cfg, s, first, rest);
      actions := first + rest;
      var stamped := AllStamped(cmds, ids, times);
      assert stamped[0] == Stamped(cmds[0], ids[0], times[0])
             && stamped[1..] == AllStamped(cmds[1..], ids[1..], times[1..]);
    }
  }

  lemma StepFitted(cfg: Config, core: Core, c: Command)
    requires Fitted(cfg, core)
    ensures Fitted(cfg, Step(cfg, core, c))
  {
  }
}
