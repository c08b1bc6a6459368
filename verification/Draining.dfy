// No thread is ever stuck: from every reachable state the stages can drive all
// commands in the log to their end, and then no command is half settled.
module Draining {
  import opened AssetTotals
  import opened Ledger
  import opened Pipeline
  import opened PipelineShape
  import opened Sequential
  import Coverage
  import Imbalance
  import Solvency

  // --- What is left to do -----------------------------------------------------------------

  // How many commands the threads of one stage have in front of them.
  function Behind(cursor: seq<nat>, n: nat): nat {
    if cursor == [] then 0
    else (if cursor[0] < n then n - cursor[0] else 0) + Behind(cursor[1..], n)
  }

  lemma {:induction false} BehindBump(cursor: seq<nat>, n: nat, i: nat)
    requires i < |cursor| && cursor[i] < n
    ensures Behind(Bump(cursor, i), n) == Behind(cursor, n) - 1
  {
    if i == 0 {
      assert Bump(cursor, i)[1..] == cursor[1..];
    } else {
      BehindBump(cursor[1..], n, i - 1);
      assert Bump(cursor, i)[1..] == Bump(cursor[1..], i - 1);
    }
  }

  // The legs that the first m settlement shards still have in their commands.
  function LegsLeft(s: State, m: nat): nat {
    if m == 0 then 0 else LegsLeft(s, m - 1) + LegsOf(s, m - 1)
  }

  function LegsOf(s: State, i: nat): nat {
    if i < |s.r2| && i < |s.leg| && s.r2[i] < |s.slots| && s.leg[i] < LegCount(s.slots[s.r2[i]])
    then LegCount(s.slots[s.r2[i]]) - s.leg[i] else 0
  }

  lemma {:induction false} LegsLeftStep(s: State, t: State, i: nat, m: nat)
    requires i < |s.leg| && t.slots == s.slots && t.r2 == s.r2 && t.leg == Bump(s.leg, i)
    requires LegsOf(s, i) > 0
    ensures LegsLeft(t, m) == LegsLeft(s, m) - (if i < m then 1 else 0)
  {
    if m > 0 {
      LegsLeftStep(s, t, i, m - 1);
      assert LegsOf(t, m - 1) == LegsOf(s, m - 1) - (if i == m - 1 then 1 else 0);
    }
  }

  // --- The next step ----------------------------------------------------------------------

  ghost predicate AllAdmitted(cfg: Config, s: State) {
    Laid(cfg, s) && forall i :: 0 <= i < cfg.riskShards ==> s.r1[i] >= |s.slots|
  }

  // Stages are drained in order, each with any of its threads.
  ghost predicate Next(cfg: Config, s: State, a: Action)
    requires Laid(cfg, s)
  {
    var n := |s.slots|;
    match a
    case Publish(_) => false
    case Journal(id, _) => s.journaled < n && id == s.bound
    case Admit(i, _) => s.journaled == n && i < cfg.riskShards && s.r1[i] < n
    case Trade(j) => s.journaled == n && AllAdmitted(cfg, s) && j < cfg.matchShards && s.mt[j] < n
    case Settle(i) =>
      && s.journaled == n && AllAdmitted(cfg, s) && (forall j :: 0 <= j < cfg.matchShards ==> s.mt[j] == n)
      && i < cfg.riskShards && s.r2[i] < n
  }

  lemma NextEnabled(cfg: Config, s: State, a: Action)
    requires Barriers(cfg, s) && Legs(cfg, s) && Next(cfg, s, a)
    ensures Enabled(cfg, s, a)
    ensures var t := Apply(cfg, s, a);
            && Barriers(cfg, t) && Legs(cfg, t) && |t.slots| == |s.slots|
            && (AllAdmitted(cfg, s) ==> AllAdmitted(cfg, t) && !a.Admit?)
  {
    LegsKept(cfg, s, a);
    CursorsMove(cfg, s, a);
  }

  lemma AtEndOrNext(cfg: Config, s: State) returns (a: Action)
    requires Barriers(cfg, s) && Legs(cfg, s)
    ensures AtEnd(cfg, s) || Next(cfg, s, a)
  {
    var n := |s.slots|;
    if s.journaled < n {
      a := Journal(s.bound, 0);
    } else if i: nat :| i < cfg.riskShards && s.r1[i] < n {
      a := Admit(i, 0);
    } else if j: nat :| j < cfg.matchShards && s.mt[j] < n {
      a := Trade(j);
    } else if i: nat :| i < cfg.riskShards && s.r2[i] < n {
      a := Settle(i);
    } else {
      a := Settle(0);
      forall i | 0 <= i < cfg.riskShards
        ensures s.r1[i] == s.r2[i] == n && s.leg[i] == 0
      {
        assert s.r2[i] <= s.mt[0] <= s.r1[i];
      }
    }
  }

  // --- Draining ---------------------------------------------------------------------------

  lemma SettleShrinks(cfg: Config, s: State, i: nat)
    requires Barriers(cfg, s) && Legs(cfg, s) && Next(cfg, s, Settle(i)) && Enabled(cfg, s, Settle(i))
    ensures var t, n := Apply(cfg, s, Settle(i)), |s.slots|;
            || Behind(t.r2, n) < Behind(s.r2, n)
            || (Behind(t.r2, n) == Behind(s.r2, n) && LegsLeft(t, |t.r2|) < LegsLeft(s, |s.r2|))
  {
    var t := Apply(cfg, s, Settle(i));
    SettleMoves(cfg, s, i);
    if Settleable(s.slots[s.r2[i]]) && s.leg[i] < LegCount(s.slots[s.r2[i]]) {
      LegsLeftStep(s, t, i, |s.r2|);
    } else {
      BehindBump(s.r2, |s.slots|, i);
    }
  }

  lemma {:induction false} Drain(cfg: Config, s: State) returns (actions: seq<Action>)
    requires Barriers(cfg, s) && Legs(cfg, s)
    ensures Allowed(cfg, s, actions) && AtEnd(cfg, Reached(cfg, s, actions))
    ensures AllAdmitted(cfg, s) ==> forall a :: a in actions ==> !a.Admit?
    decreases |s.slots| - s.journaled, Behind(s.r1, |s.slots|), Behind(s.mt, |s.slots|), Behind(s.r2, |s.slots|),
              LegsLeft(s, |s.r2|)
  {
    var a := AtEndOrNext(cfg, s);
    if AtEnd(cfg, s) {
      actions := [];
    } else {
      NextEnabled(cfg, s, a);
      CursorsMove(cfg, s, a);
      match a {
        case Admit(i, _) => BehindBump(s.r1, |s.slots|, i);
        case Trade(j) => BehindBump(s.mt, |s.slots|, j);
        case Settle(i) => SettleShrinks(cfg, s, i);
        case _ =>
      }
      var rest := Drain(cfg, Apply(cfg, s, a));
      ReachedOne(cfg, s, a);
      ReachedAppend(cfg, s, [a], rest);
      actions := [a] + rest;
    }
  }

  // --- Reachable states -------------------------------------------------------------------

  // Only admission asks anything of amounts.
  lemma NetKept(cfg: Config, s: State, a: Action)
    requires Enabled(cfg, s, a) && !a.Admit?
    ensures Apply(cfg, s, a).net == s.net
  {
    match a {
      case Trade(j) => TradeMoves(cfg, s, j);
      case Settle(i) => SettleKeepsNet(cfg, s, i);
      case _ =>
    }
  }

  lemma {:induction false} QuietPossible(cfg: Config, s: State, actions: seq<Action>)
    requires Allowed(cfg, s, actions) && NetFits(s) && forall a :: a in actions ==> !a.Admit?
    ensures Possible(cfg, s, actions)
    decreases |actions|
  {
    if actions != [] {
      assert actions[0] in actions;
      NetKept(cfg, s, actions[0]);
      QuietPossible(cfg, Apply(cfg, s, actions[0]), actions[1..]);
    }
  }

  lemma {:induction false} PossibleReached(cfg: Config, s: State, actions: seq<Action>)
    requires Possible(cfg, s, actions)
    ensures Allowed(cfg, s, actions) && Reached(cfg, s, actions) == After(cfg, s, actions)
    decreases |actions|
  {
    if actions != [] {
      PossibleReached(cfg, Apply(cfg, s, actions[0]), actions[1..]);
    }
  }

  // Every reachable state can be driven to an idle pipeline by steps that are
  // enabled. Once all commands are admitted, nothing more is asked of amounts; and
  // if the bounds on amounts are kept, balances and fees then add up to deposits
  // less withdrawals.
  lemma EveryRunDrains(cfg: Config, actions: seq<Action>) returns (more: seq<Action>)
    requires GoodConfig(cfg) && Possible(cfg, Initial(cfg), actions)
    ensures var s := After(cfg, Initial(cfg), actions);
            && Allowed(cfg, s, more) && AtEnd(cfg, Reached(cfg, s, more))
            && (AllAdmitted(cfg, s) ==> Possible(cfg, s, more))
            && (Possible(cfg, s, more) ==>
                  var t := Reached(cfg, s, more);
                  forall asset :: Holdings(t.store, asset) + At(t.fees, asset) == At(t.net, asset))
  {
    Solvency.ReachableBacked(cfg, actions);
    var s := After(cfg, Initial(cfg), actions);
    more := Drain(cfg, s);
    if AllAdmitted(cfg, s) {
      QuietPossible(cfg, s, more);
    }
    if Possible(cfg, s, more) {
      PossibleReached(cfg, s, more);
      Solvency.RunBacked(cfg, s, more);
      IdleConserves(cfg, Reached(cfg, s, more));
    }
  }

  lemma IdleConserves(cfg: Config, s: State)
    requires Coverage.Backed(cfg, s) && AtEnd(cfg, s)
    ensures forall asset :: Holdings(s.store, asset) + At(s.fees, asset) == At(s.net, asset)
  {
    forall k: nat | k < |s.slots|
      ensures Imbalance.Whole(cfg, s, k)
    {
      Solvency.BoundaryWhole(cfg, s, |s.slots|, k);
    }
    forall asset
      ensures Holdings(s.store, asset) + At(s.fees, asset) == At(s.net, asset)
    {
      Solvency.WholeConserves(cfg, s, asset);
    }
  }
}
