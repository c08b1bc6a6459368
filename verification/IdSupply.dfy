// Where the pipeline's ids come from: one generator feeds the journaling thread
// of all markets, and its ids are all that the id guard of the pipeline asks.
module IdSupply {
  import opened Orders
  import opened Pipeline
  import PipelineShape
  import Flakes = Snowflakes
  import Journaling
  import Coverage
  import Solvency

  // A run that keeps the barriers and the bounds on amounts, whatever its ids.
  ghost predicate Feasible(cfg: Config, s: State, actions: seq<Action>)
    decreases |actions|
  {
    actions == []
    || (Ready(cfg, s, actions[0]) && SupplyFits(cfg, s, actions[0])
        && Feasible(cfg, Apply(cfg, s, actions[0]), actions[1..]))
  }

  // The action draws an id from the generator.
  predicate Draws(s: State, a: Action) {
    a.Journal? && s.journaled < |s.slots| && s.slots[s.journaled].kind != CancelOrder
  }

  // All ids drawn by a run, in order and over all markets.
  ghost function Drawn(cfg: Config, s: State, actions: seq<Action>): seq<nat>
    requires Feasible(cfg, s, actions)
    decreases |actions|
  {
    if actions == [] then []
    else
      (if Draws(s, actions[0]) then [actions[0].id] else [])
      + Drawn(cfg, Apply(cfg, s, actions[0]), actions[1..])
  }

  lemma NextBound(cfg: Config, s: State, a: Action)
    requires Ready(cfg, s, a)
    ensures Apply(cfg, s, a).bound == if Draws(s, a) then a.id + 1 else s.bound
  {
    match a {
      case Publish(_) =>
      case Journal(_, _) =>
      case Admit(i, bestAsk) => PipelineShape.AdmitMoves(cfg, s, i, bestAsk);
      case Trade(j) => PipelineShape.TradeMoves(cfg, s, j);
      case Settle(i) => PipelineShape.SettleMoves(cfg, s, i);
    }
  }

  ghost predicate Fresh(bound: nat, ids: seq<nat>) {
    Flakes.Increasing(ids) && forall id :: id in ids ==> id >= bound
  }

  lemma FreshFirst(bound: nat, id: nat, rest: seq<nat>)
    ensures Fresh(bound, [id] + rest) <==> bound <= id && Fresh(id + 1, rest)
  {
    var ids := [id] + rest;
    if Fresh(bound, ids) {
      Journaling.FirstIsLeast(id, ids, rest);
    }
    if bound <= id && Fresh(id + 1, rest) {
      Flakes.FirstLeast(id, rest);
    }
  }

  // A run passes every id guard if and only if the ids it draws increase strictly
  // from the bound on.
  lemma {:induction false} IdsEnable(cfg: Config, s: State, actions: seq<Action>)
    requires Feasible(cfg, s, actions)
    ensures Possible(cfg, s, actions) <==> Fresh(s.bound, Drawn(cfg, s, actions))
    decreases |actions|
  {
    if actions != [] {
      var a, t, rest := actions[0], Apply(cfg, s, actions[0]), actions[1..];
      IdsEnable(cfg, t, rest);
      NextBound(cfg, s, a);
      if Draws(s, a) {
        FreshFirst(s.bound, a.id, Drawn(cfg, t, rest));
      } else {
        assert Drawn(cfg, s, actions) == Drawn(cfg, t, rest);
      }
    }
  }

  // The ids of one new generator, on any clock that does not run back, enable every
  // journaling step of a run over all markets; so its ledger stays backed.
  lemma GeneratorEnables(cfg: Config, actions: seq<Action>, epoch: nat, clock: nat -> nat, rs: seq<Flakes.Request>)
    requires GoodConfig(cfg) && Flakes.NonDecreasing(clock) && Feasible(cfg, Initial(cfg), actions)
    requires Drawn(cfg, Initial(cfg), actions) == Flakes.Issued(Flakes.Generator(0, 0), epoch, clock, 0, rs)
    ensures Possible(cfg, Initial(cfg), actions)
    ensures Coverage.Backed(cfg, After(cfg, Initial(cfg), actions))
  {
    Flakes.GeneratedIdsIncrease(epoch, clock, rs);
    IdsEnable(cfg, Initial(cfg), actions);
    Solvency.ReachableBacked(cfg, actions);
  }
}
