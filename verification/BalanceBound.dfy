// Why no lock wraps: one balance never holds more of an asset than was ever
// deposited of it. Settlement shards run at their own pace, so the balances of two
// users belong to different positions in the log; the proof compares all users at
// the position of one shard.
module BalanceBound {
  import opened Orders
  import opened QuoteMath
  import opened AssetTotals
  import opened Ledger
  import opened Sums
  import opened Pipeline
  import opened PipelineShape
  import opened Claims
  import opened Coverage
  import opened Imbalance
  import opened GrossDeposits
  import Solvency
  import Conservation
  import Shards

  // --- Positions ahead of a shard -------------------------------------------------------------

  // Every leg in front of a position is known.
  ghost predicate AllMatched(cfg: Config, s: State, p: Position)
    requires Laid(cfg, s)
  {
    && (forall k: nat :: k < p.slot ==> Matched(cfg, s, k))
    && (p.leg > 0 ==> Matched(cfg, s, p.slot))
  }

  // A leg that a shard has not reached gives no more than it claims.
  lemma LegPaid(cfg: Config, s: State, k: nat, leg: nat, key: Key)
    requires Laid(cfg, s) && k < |s.slots| && leg < LegCount(s.slots[k])
    requires leg >= LegsBefore(s.slots[k], k, Standing(cfg, s, key.user))
    ensures LegFlow(cfg.specs, s.slots[k], leg, key) + OpenClaims(cfg, s, k, One(key))(leg) >= 0
  {
    HomeInRange(cfg.riskShards, key.user);
  }

  lemma {:induction false} LegsPaid(cfg: Config, s: State, k: nat, m: nat, key: Key)
    requires Laid(cfg, s) && k < |s.slots|
    requires LegsBefore(s.slots[k], k, Standing(cfg, s, key.user)) <= m <= LegCount(s.slots[k])
    ensures var from := LegsBefore(s.slots[k], k, Standing(cfg, s, key.user));
            var flows, claims := LegFlows(cfg.specs, s.slots[k], key), OpenClaims(cfg, s, k, One(key));
            SumTo(flows, m) + SumTo(claims, m) >= SumTo(flows, from) + SumTo(claims, from)
  {
    if m > LegsBefore(s.slots[k], k, Standing(cfg, s, key.user)) {
      LegsPaid(cfg, s, k, m - 1, key);
      LegPaid(cfg, s, k, m - 1, key);
    }
  }

  lemma SlotPaid(cfg: Config, s: State, p: Position, k: nat, key: Key)
    requires Laid(cfg, s) && AllMatched(cfg, s, p) && Within(Standing(cfg, s, key.user), p)
    ensures SlotFlow(cfg, s, p, k, key) + SlotClaim(cfg, s, k, One(key))
         >= SlotFlow(cfg, s, Standing(cfg, s, key.user), k, key)
  {
    SlotClaimSign(cfg, s, k, One(key));
    if k < |s.slots| && Settleable(s.slots[k]) && Matched(cfg, s, k) {
      var from, m := LegsBefore(s.slots[k], k, Standing(cfg, s, key.user)), LegsBefore(s.slots[k], k, p);
      var claims := OpenClaims(cfg, s, k, One(key));
      LegsPaid(cfg, s, k, m, key);
      SumNonNegative(claims, from);
      SumGrows(claims, m, Parts(s.slots[k]));
    }
  }

  // So at every such position, also ahead of its own shard, a user is never short.
  lemma NotShortAt(cfg: Config, s: State, p: Position, key: Key)
    requires Backed(cfg, s) && Accounts(cfg, s) && AllMatched(cfg, s, p)
    ensures Deposited(s, key) + Flow(cfg, s, p, key) >= 0
  {
    assert AccountedFor(cfg, s, key) && NeverShort(cfg, s, key);
    if !Within(p, Standing(cfg, s, key.user)) {
      var flows, claims := SlotFlows(cfg, s, p, key), SlotClaims(cfg, s, One(key));
      var both := (k: nat) => flows(k) + claims(k);
      forall k: nat | k < |s.slots|
        ensures SlotFlows(cfg, s, Standing(cfg, s, key.user), key)(k) <= both(k)
      {
        SlotPaid(cfg, s, p, k, key);
      }
      SumAtMost(SlotFlows(cfg, s, Standing(cfg, s, key.user), key), both, |s.slots|);
      SumAdd(flows, claims, both, |s.slots|);
      SumNonNegative(BookClaims(cfg, s, One(key)), |s.books|);
      assert CoveredIn(cfg, s, One(key));
      WithdrawnSign(s, key);
    }
  }

  // --- All users together -------------------------------------------------------------------

  function UserLegFlows(specs: seq<Spec>, c: Command, leg: nat, asset: nat): nat -> int {
    (u: nat) => LegFlow(specs, c, leg, Key(u, asset))
  }

  function UserLegs(specs: seq<Spec>, c: Command, n: nat, asset: nat): nat -> int {
    (u: nat) => SumTo(LegFlows(specs, c, Key(u, asset)), n)
  }

  ghost predicate UsersBelow(c: Command, users: nat) {
    forall leg :: 0 <= leg < LegCount(c) ==> LegUser(c, leg) < users
  }

  // Over all users a leg is its imbalance less its fee.
  lemma LegLoses(cfg: Config, c: Command, leg: nat, asset: nat, users: nat)
    requires GoodConfig(cfg) && UsersBelow(c, users)
    ensures SumTo(UserLegFlows(cfg.specs, c, leg, asset), users) <= LegNet(cfg.specs, c, leg, asset)
  {
    var flows := UserLegFlows(cfg.specs, c, leg, asset);
    if leg < LegCount(c) && FindSpec(cfg.specs, c.marketId).Some? {
      var spec := FindSpec(cfg.specs, c.marketId).value;
      var t := LegTerms(spec, c, leg);
      LegFee(cfg, c, leg, spec);
      assert t.get.user == t.give.user == LegUser(c, leg);
      var got, gave := Spot(t.get.user, Of(t.get, asset, Net(t.gross, t.fee))),
                       Spot(t.give.user, 0 - Of(t.give, asset, t.giveAmount));
      SumAdd(got, gave, flows, users);
      SumSpot(t.get.user, Of(t.get, asset, Net(t.gross, t.fee)), users);
      SumSpot(t.give.user, 0 - Of(t.give, asset, t.giveAmount), users);
    } else {
      SumZero(flows, users);
    }
  }

  // Whole trades create nothing.
  lemma {:induction false} TradesLose(cfg: Config, c: Command, i: nat, asset: nat, users: nat)
    requires GoodConfig(cfg) && UsersBelow(c, users) && i <= |c.events|
    ensures SumTo(UserLegs(cfg.specs, c, 2 * i, asset), users) <= 0
  {
    if i == 0 {
      SumZero(UserLegs(cfg.specs, c, 0, asset), users);
    } else {
      var m := 2 * (i - 1);
      TradesLose(cfg, c, i - 1, asset, users);
      OneMoreLeg(cfg, c, m, asset, users);
      OneMoreLeg(cfg, c, m + 1, asset, users);
      LegsCancel(cfg.specs, c, i - 1, asset);
    }
  }

  lemma OneMoreLeg(cfg: Config, c: Command, n: nat, asset: nat, users: nat)
    requires GoodConfig(cfg) && UsersBelow(c, users)
    ensures SumTo(UserLegs(cfg.specs, c, n + 1, asset), users)
         <= SumTo(UserLegs(cfg.specs, c, n, asset), users) + LegNet(cfg.specs, c, n, asset)
  {
    SumAdd(UserLegs(cfg.specs, c, n, asset), UserLegFlows(cfg.specs, c, n, asset),
           UserLegs(cfg.specs, c, n + 1, asset), users);
    LegLoses(cfg, c, n, asset, users);
  }

  function UserSlotFlows(cfg: Config, s: State, p: Position, k: nat, asset: nat): nat -> int {
    (u: nat) => SlotFlow(cfg, s, p, k, Key(u, asset))
  }

  function UserFlows(cfg: Config, s: State, p: Position, n: nat, asset: nat): nat -> int {
    (u: nat) => SumTo(SlotFlows(cfg, s, p, Key(u, asset)), n)
  }

  ghost predicate AllBelow(s: State, users: nat) {
    forall k :: 0 <= k < |s.slots| ==> UsersBelow(s.slots[k], users)
  }

  // The position splits no trade.
  ghost predicate BetweenTrades(s: State, p: Position) {
    forall k: nat :: k < |s.slots| ==> LegsBefore(s.slots[k], k, p) % 2 == 0
  }

  lemma SlotLoses(cfg: Config, s: State, p: Position, k: nat, asset: nat, users: nat)
    requires GoodConfig(cfg) && AllBelow(s, users) && BetweenTrades(s, p)
    ensures SumTo(UserSlotFlows(cfg, s, p, k, asset), users) <= 0
  {
    if k < |s.slots| && Settleable(s.slots[k]) {
      var c := s.slots[k];
      var n := LegsBefore(c, k, p);
      assert n == 2 * (n / 2);
      TradesLose(cfg, c, n / 2, asset, users);
      SumSame(UserSlotFlows(cfg, s, p, k, asset), UserLegs(cfg.specs, c, n, asset), users);
    } else {
      SumZero(UserSlotFlows(cfg, s, p, k, asset), users);
    }
  }

  lemma {:induction false} FlowsLose(cfg: Config, s: State, p: Position, n: nat, asset: nat, users: nat)
    requires GoodConfig(cfg) && AllBelow(s, users) && BetweenTrades(s, p)
    ensures SumTo(UserFlows(cfg, s, p, n, asset), users) <= 0
  {
    if n == 0 {
      SumZero(UserFlows(cfg, s, p, 0, asset), users);
    } else {
      FlowsLose(cfg, s, p, n - 1, asset, users);
      SlotLoses(cfg, s, p, n - 1, asset, users);
      SumAdd(UserFlows(cfg, s, p, n - 1, asset), UserSlotFlows(cfg, s, p, n - 1, asset),
             UserFlows(cfg, s, p, n, asset), users);
    }
  }

  function UserDeposit(s: State, k: nat, asset: nat): nat -> int {
    (u: nat) => if k < |s.slots| then Deposit(s.slots[k], Key(u, asset)) else 0
  }

  function UserDeposits(s: State, n: nat, asset: nat): nat -> int {
    (u: nat) => SumTo(SlotDeposits(s, Key(u, asset)), n)
  }

  // The deposits of any users are among all deposits.
  lemma {:induction false} DepositsWithin(s: State, n: nat, asset: nat, users: nat)
    ensures SumTo(UserDeposits(s, n, asset), users) <= SumTo(AssetDeposits(s, asset), n)
  {
    if n == 0 {
      SumZero(UserDeposits(s, 0, asset), users);
    } else {
      DepositsWithin(s, n - 1, asset, users);
      DepositWithin(s, n - 1, asset, users);
      SumAdd(UserDeposits(s, n - 1, asset), UserDeposit(s, n - 1, asset), UserDeposits(s, n, asset), users);
    }
  }

  lemma DepositWithin(s: State, k: nat, asset: nat, users: nat)
    ensures SumTo(UserDeposit(s, k, asset), users) <= AssetDeposits(s, asset)(k)
  {
    if k < |s.slots| {
      var spot := Spot(s.slots[k].userId, AssetDeposit(s.slots[k], asset));
      SumSame(UserDeposit(s, k, asset), spot, users);
      SumSpot(s.slots[k].userId, AssetDeposit(s.slots[k], asset), users);
    } else {
      SumZero(UserDeposit(s, k, asset), users);
    }
  }

  // --- One balance against all deposits -----------------------------------------------------

  lemma {:induction false} CommandUsers(c: Command, i: nat) returns (users: nat)
    requires i <= |c.events|
    ensures c.userId < users && forall j :: 0 <= j < i ==> c.events[j].makerUser < users
  {
    if i == 0 {
      users := c.userId + 1;
    } else {
      users := CommandUsers(c, i - 1);
      users := if users <= c.events[i - 1].makerUser then c.events[i - 1].makerUser + 1 else users;
    }
  }

  lemma {:induction false} LogUsers(s: State, n: nat, least: nat) returns (users: nat)
    requires n <= |s.slots|
    ensures least < users && forall k :: 0 <= k < n ==> UsersBelow(s.slots[k], users)
  {
    if n == 0 {
      users := least + 1;
    } else {
      var before := LogUsers(s, n - 1, least);
      var here := CommandUsers(s.slots[n - 1], |s.slots[n - 1].events|);
      users := if before <= here then here else before;
    }
  }

  // A position between trades with the same flow into the balance as the position
  // its shard stands at: a trade half settled is left out for its taker, and counted
  // in full for everyone else.
  lemma Rounded(cfg: Config, s: State, key: Key) returns (p: Position)
    requires Sound(cfg, s)
    ensures BetweenTrades(s, p) && AllMatched(cfg, s, p)
    ensures Flow(cfg, s, p, key) == Flow(cfg, s, Standing(cfg, s, key.user), key)
  {
    p := Standing(cfg, s, key.user);
    StandingMatched(cfg, s, key.user);
    if p.leg % 2 == 1 {
      p := PairEnd(cfg, s, p, key);
    }
    EvenBetween(s, p);
  }

  lemma EvenBetween(s: State, p: Position)
    requires p.leg % 2 == 0
    ensures BetweenTrades(s, p)
  {
  }

  lemma PairEnd(cfg: Config, s: State, q: Position, key: Key) returns (p: Position)
    requires Sound(cfg, s) && AllMatched(cfg, s, q)
    requires q.slot < |s.slots| && q.leg % 2 == 1 && q.leg <= LegCount(s.slots[q.slot])
    ensures AllMatched(cfg, s, p) && p.leg % 2 == 0
    ensures Flow(cfg, s, p, key) == Flow(cfg, s, q, key)
  {
    var c := s.slots[q.slot];
    MakerIsNotTaker(cfg, s, q.slot, q.leg / 2);
    var l := if c.userId == key.user then q.leg - 1 else q.leg;
    assert q.leg / 2 == l / 2 && LegUser(c, l) != key.user;
    LegMeets(cfg.specs, c, l, key);
    LegAhead(cfg, s, q.slot, l, key);
    p := if c.userId == key.user then Position(q.slot, q.leg - 1) else Position(q.slot, q.leg + 1);
  }

  lemma MakerIsNotTaker(cfg: Config, s: State, k: nat, j: nat)
    requires Sound(cfg, s) && Matched(cfg, s, k) && j < |s.slots[k].events|
    ensures s.slots[k].events[j].makerUser != s.slots[k].userId
  {
    assert SlotOk(cfg, s, k);
    assert s.slots[k].events[j] in s.slots[k].events;
  }

  lemma StandingMatched(cfg: Config, s: State, user: nat)
    requires Sound(cfg, s)
    ensures var q := Standing(cfg, s, user);
            && AllMatched(cfg, s, q)
            && (q.leg > 0 ==> q.slot < |s.slots| && q.leg <= LegCount(s.slots[q.slot]))
  {
    HomeInRange(cfg.riskShards, user);
    var i := user % cfg.riskShards;
    assert s.r2[i] <= s.mt[0] <= s.r1[0];
    forall k: nat | k < s.r2[i]
      ensures Matched(cfg, s, k)
    {
      HomeInRange(cfg.matchShards, s.slots[k].marketId);
      assert s.r2[i] <= s.mt[s.slots[k].marketId % cfg.matchShards];
    }
    if s.leg[i] > 0 {
      HomeInRange(cfg.matchShards, s.slots[s.r2[i]].marketId);
    }
  }

  // A leg that does not meet the balance makes no difference to its flow.
  lemma LegAhead(cfg: Config, s: State, k: nat, l: nat, key: Key)
    requires k < |s.slots| && l < LegCount(s.slots[k]) && LegFlow(cfg.specs, s.slots[k], l, key) == 0
    ensures Flow(cfg, s, Position(k, l + 1), key) == Flow(cfg, s, Position(k, l), key)
  {
    FlowDiffers(cfg, s, Position(k, l + 1), Position(k, l), k, key);
  }

  // In every reachable state a balance holds, available and locked, no more than was
  // ever deposited of its asset.
  lemma BalanceWithin(cfg: Config, s: State, key: Key)
    requires Backed(cfg, s) && Accounts(cfg, s)
    ensures Get(s.store, key).available + Get(s.store, key).locked <= Gross(s, key.asset)
  {
    var n, asset := |s.slots|, key.asset;
    assert AccountedFor(cfg, s, key);
    WithdrawnSign(s, key);
    var p := Rounded(cfg, s, key);
    var users := LogUsers(s, n, key.user);
    var paid, flows := UserDeposits(s, n, asset), UserFlows(cfg, s, p, n, asset);
    var had := (u: nat) => paid(u) + flows(u);
    forall u: nat | u < users
      ensures had(u) >= 0
    {
      NotShortAt(cfg, s, p, Key(u, asset));
    }
    SumAtLeast(had, users, key.user);
    SumAdd(paid, flows, had, users);
    FlowsLose(cfg, s, p, n, asset, users);
    DepositsWithin(s, n, asset, users);
    assert key == Key(key.user, asset);
  }
  // --- Runs ---------------------------------------------------------------------------------

  // Net deposits never exceed all deposits.
  ghost predicate NetWithin(s: State) {
    forall asset :: At(s.net, asset) <= Gross(s, asset)
  }

  // Deposits only grow, and net deposits grow by no more.
  lemma NetGrows(cfg: Config, s: State, a: Action, asset: nat)
    requires Sound(cfg, s) && Enabled(cfg, s, a)
    ensures var t := Apply(cfg, s, a);
            && Gross(t, asset) >= Gross(s, asset)
            && At(t.net, asset) - At(s.net, asset) <= Gross(t, asset) - Gross(s, asset)
  {
    var key := Key(0, asset);
    match a {
      case Admit(i, bestAsk) =>
        AdmitFunds(cfg, s, i, bestAsk, key);
        if Shards.Owns(cfg.riskShards, i, s.slots[s.r1[i]].userId) {
          Conservation.NetAfterAdds(s.net, PreProcess(s.store, cfg.specs, s.slots[s.r1[i]], bestAsk).1, asset);
        }
      case Trade(j) =>
        FundsKept(cfg, s, a, key);
        TradeMoves(cfg, s, j);
      case Settle(i) =>
        FundsKept(cfg, s, a, key);
        SettleKeepsNet(cfg, s, i);
      case _ =>
        FundsKept(cfg, s, a, key);
    }
  }

  // All deposits of each asset fit a machine word.
  ghost predicate GrossFits(s: State) {
    forall asset :: Gross(s, asset) <= U64_MAX
  }

  ghost predicate ReservationsFit(cfg: Config, s: State, a: Action)
    requires Ready(cfg, s, a)
  {
    a.Admit? ==>
      var c := s.slots[s.r1[a.shard]];
      Shards.Owns(cfg.riskShards, a.shard, c.userId) ==> ReservationFits(cfg, c, a.bestAsk)
  }

  // A run that asks nothing of balances: reservations fit the quote arithmetic, and
  // deposits never outgrow a machine word.
  ghost predicate Payable(cfg: Config, s: State, actions: seq<Action>)
    decreases |actions|
  {
    actions == []
    || (Enabled(cfg, s, actions[0]) && ReservationsFit(cfg, s, actions[0])
        && GrossFits(Apply(cfg, s, actions[0]))
        && Payable(cfg, Apply(cfg, s, actions[0]), actions[1..]))
  }

  ghost predicate Bounded(cfg: Config, s: State) {
    Backed(cfg, s) && Accounts(cfg, s) && NetWithin(s)
  }

  // A lock cannot wrap where all deposits fit a machine word.
  lemma LocksFit(cfg: Config, s: State, c: Command, bestAsk: nat)
    requires Bounded(cfg, s) && GrossFits(s)
    ensures ReservationLocks(cfg.specs, s.store, c, bestAsk)
  {
    BalanceWithin(cfg, s, HeldKey(c));
  }

  lemma StepFits(cfg: Config, s: State, a: Action)
    requires Bounded(cfg, s) && Enabled(cfg, s, a) && ReservationsFit(cfg, s, a) && GrossFits(Apply(cfg, s, a))
    ensures SupplyFits(cfg, s, a)
  {
    forall asset
      ensures At(Apply(cfg, s, a).net, asset) <= U64_MAX && Gross(s, asset) <= U64_MAX
    {
      NetGrows(cfg, s, a, asset);
    }
    if a.Admit? {
      LocksFit(cfg, s, s.slots[s.r1[a.shard]], a.bestAsk);
    }
  }

  lemma StepBounded(cfg: Config, s: State, a: Action)
    requires Bounded(cfg, s) && Enabled(cfg, s, a) && SupplyFits(cfg, s, a)
    ensures Bounded(cfg, Apply(cfg, s, a))
  {
    Solvency.StepBacked(cfg, s, a);
    StepAccounts(cfg, s, a);
    forall asset
      ensures At(Apply(cfg, s, a).net, asset) <= Gross(Apply(cfg, s, a), asset)
    {
      NetGrows(cfg, s, a, asset);
    }
  }

  lemma InitialBounded(cfg: Config)
    requires GoodConfig(cfg)
    ensures Laid(cfg, Initial(cfg)) && Bounded(cfg, Initial(cfg))
  {
    Solvency.InitialBacked(cfg);
    var s := Initial(cfg);
    forall key
      ensures AccountedFor(cfg, s, key) && NeverShort(cfg, s, key)
    {
      assert Get(s.store, key) == Balance(0, 0);
    }
  }

  lemma {:induction false} RunBounded(cfg: Config, s: State, actions: seq<Action>)
    requires Bounded(cfg, s) && Possible(cfg, s, actions)
    ensures Bounded(cfg, After(cfg, s, actions))
    decreases |actions|
  {
    if actions != [] {
      StepBounded(cfg, s, actions[0]);
      RunBounded(cfg, Apply(cfg, s, actions[0]), actions[1..]);
    }
  }

  // In every reachable state no balance holds more of an asset, available and
  // locked, than was ever deposited of it.
  lemma HoldsWithinDeposits(cfg: Config, actions: seq<Action>, key: Key)
    requires GoodConfig(cfg) && Possible(cfg, Initial(cfg), actions)
    ensures var s := After(cfg, Initial(cfg), actions);
            Get(s.store, key).available + Get(s.store, key).locked <= Gross(s, key.asset)
  {
    InitialBounded(cfg);
    RunBounded(cfg, Initial(cfg), actions);
    BalanceWithin(cfg, After(cfg, Initial(cfg), actions), key);
  }

  lemma {:induction false} PayablePossible(cfg: Config, s: State, actions: seq<Action>)
    requires Bounded(cfg, s) && Payable(cfg, s, actions)
    ensures Possible(cfg, s, actions)
    decreases |actions|
  {
    if actions != [] {
      StepFits(cfg, s, actions[0]);
      StepBounded(cfg, s, actions[0]);
      PayablePossible(cfg, Apply(cfg, s, actions[0]), actions[1..]);
    }
  }

  // So no bound on balances has to be assumed: where reservations fit the quote
  // arithmetic and all deposits of each asset fit a machine word, no lock ever wraps
  // and net deposits fit.
  lemma DepositsSuffice(cfg: Config, actions: seq<Action>)
    requires GoodConfig(cfg) && Payable(cfg, Initial(cfg), actions)
    ensures Possible(cfg, Initial(cfg), actions)
  {
    InitialBounded(cfg);
    PayablePossible(cfg, Initial(cfg), actions);
  }
}
