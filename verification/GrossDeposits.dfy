// Every balance is what its user paid in, less what was taken out, and all legs in
// front of the position its settlement shard stands at; and at no position the
// shard has been at did the user give more than it ever had.
module GrossDeposits {
  import opened Orders
  import opened QuoteMath
  import opened Ledger
  import opened Sums
  import opened Pipeline
  import opened PipelineShape
  import opened Claims
  import opened Coverage
  import Conservation
  import Shards
  import PipelineSound

  // --- Deposits and withdrawals ---------------------------------------------------------

  function Deposit(c: Command, key: Key): nat {
    if c.kind == DepositFunds && c.status == Processed && FundsKey(c) == key then c.size else 0
  }

  function Withdrawal(c: Command, key: Key): nat {
    if c.kind == WithdrawFunds && c.status == Processed && FundsKey(c) == key then c.size else 0
  }

  function SlotDeposits(s: State, key: Key): nat -> int {
    (k: nat) => if k < |s.slots| then Deposit(s.slots[k], key) else 0
  }

  function SlotWithdrawals(s: State, key: Key): nat -> int {
    (k: nat) => if k < |s.slots| then Withdrawal(s.slots[k], key) else 0
  }

  function Deposited(s: State, key: Key): int { SumTo(SlotDeposits(s, key), |s.slots|) }

  function Withdrawn(s: State, key: Key): int { SumTo(SlotWithdrawals(s, key), |s.slots|) }

  function AssetDeposit(c: Command, asset: nat): nat {
    if c.kind == DepositFunds && c.status == Processed && FundsKey(c).asset == asset then c.size else 0
  }

  function AssetDeposits(s: State, asset: nat): nat -> int {
    (k: nat) => if k < |s.slots| then AssetDeposit(s.slots[k], asset) else 0
  }

  // All that was ever deposited of an asset.
  function Gross(s: State, asset: nat): int { SumTo(AssetDeposits(s, asset), |s.slots|) }

  // --- Flows ------------------------------------------------------------------------------

  // A place in the log: in front of one leg of one command.
  datatype Position = Position(slot: nat, leg: nat)

  predicate Within(p: Position, q: Position) {
    p.slot < q.slot || (p.slot == q.slot && p.leg <= q.leg)
  }

  // What one leg adds to one balance in all.
  function LegFlow(specs: seq<Spec>, c: Command, leg: nat, key: Key): int {
    match FindSpec(specs, c.marketId)
    case None => 0
    case Some(spec) =>
      if leg >= LegCount(c) then 0
      else
        var t := LegTerms(spec, c, leg);
        (if key == t.get then Net(t.gross, t.fee) else 0) - (if key == t.give then t.giveAmount else 0)
  }

  function LegFlows(specs: seq<Spec>, c: Command, key: Key): nat -> int {
    (leg: nat) => LegFlow(specs, c, leg, key)
  }

  // How many legs of command k lie in front of a position.
  function LegsBefore(c: Command, k: nat, p: Position): (n: nat)
    ensures n <= LegCount(c)
  {
    if k < p.slot then LegCount(c)
    else if k == p.slot then Min(p.leg, LegCount(c))
    else 0
  }

  function SlotFlow(cfg: Config, s: State, p: Position, k: nat, key: Key): int {
    if k < |s.slots| && Settleable(s.slots[k])
    then SumTo(LegFlows(cfg.specs, s.slots[k], key), LegsBefore(s.slots[k], k, p)) else 0
  }

  function SlotFlows(cfg: Config, s: State, p: Position, key: Key): nat -> int {
    (k: nat) => SlotFlow(cfg, s, p, k, key)
  }

  // What all legs in front of a position add to one balance.
  function Flow(cfg: Config, s: State, p: Position, key: Key): int {
    SumTo(SlotFlows(cfg, s, p, key), |s.slots|)
  }

  // Where the settlement shard of a user stands.
  function Standing(cfg: Config, s: State, user: nat): Position
    requires Laid(cfg, s)
  {
    HomeInRange(cfg.riskShards, user);
    var i := user % cfg.riskShards;
    Position(s.r2[i], s.leg[i])
  }

  // A balance is what its user paid in less what was taken out, and all legs so far.
  ghost predicate AccountedFor(cfg: Config, s: State, key: Key)
    requires Laid(cfg, s)
  {
    var b := Get(s.store, key);
    b.available + b.locked == Deposited(s, key) - Withdrawn(s, key) + Flow(cfg, s, Standing(cfg, s, key.user), key)
  }

  // At no position its shard has been at did a user give more than it ever had.
  ghost predicate NeverShort(cfg: Config, s: State, key: Key)
    requires Laid(cfg, s)
  {
    forall p :: Within(p, Standing(cfg, s, key.user)) ==> Deposited(s, key) + Flow(cfg, s, p, key) >= 0
  }

  ghost predicate Accounts(cfg: Config, s: State)
    requires Laid(cfg, s)
  {
    forall key :: AccountedFor(cfg, s, key) && NeverShort(cfg, s, key)
  }

  lemma WithdrawnSign(s: State, key: Key)
    ensures Withdrawn(s, key) >= 0
  {
    SumNonNegative(SlotWithdrawals(s, key), |s.slots|);
  }

  // The position a shard stands at is never short.
  lemma StandingCovered(cfg: Config, s: State, key: Key)
    requires Laid(cfg, s) && AccountedFor(cfg, s, key)
    ensures Deposited(s, key) + Flow(cfg, s, Standing(cfg, s, key.user), key) >= 0
  {
    WithdrawnSign(s, key);
  }

  // --- Steps that settle nothing ------------------------------------------------------------

  // A command behind a position, or right at it, has no leg in front.
  lemma AheadOfAll(cfg: Config, s: State, p: Position, k: nat, key: Key)
    requires p.slot < k || p == Position(k, 0)
    ensures SlotFlow(cfg, s, p, k, key) == 0
  {
  }

  // They rewrite no leg that any settlement shard has reached.
  lemma QuietFlow(cfg: Config, s: State, a: Action, p: Position, key: Key)
    requires Sound(cfg, s) && Enabled(cfg, s, a) && !a.Settle? && Within(p, Standing(cfg, s, key.user))
    ensures Flow(cfg, Apply(cfg, s, a), p, key) == Flow(cfg, s, p, key)
  {
    var t, n := Apply(cfg, s, a), |s.slots|;
    CursorsMove(cfg, s, a);
    HomeInRange(cfg.riskShards, key.user);
    Conservation.NotReached(cfg, s, a, key.user % cfg.riskShards);
    forall k: nat | k < n
      ensures SlotFlows(cfg, t, p, key)(k) == SlotFlows(cfg, s, p, key)(k)
    {
      if k != Touched(s, a) {
        OthersUntouched(cfg, s, a, k);
      } else {
        AheadOfAll(cfg, s, p, k, key);
        AheadOfAll(cfg, t, p, k, key);
      }
    }
    SumSame(SlotFlows(cfg, t, p, key), SlotFlows(cfg, s, p, key), n);
    if a.Publish? {
      var f := SlotFlows(cfg, t, p, key);
      AheadOfAll(cfg, t, p, n, key);
      assert SumTo(f, n + 1) == SumTo(f, n) + f(n);
    }
  }

  lemma QuietStanding(cfg: Config, s: State, a: Action, user: nat)
    requires Sound(cfg, s) && Enabled(cfg, s, a) && !a.Settle?
    ensures Laid(cfg, Apply(cfg, s, a))
    ensures Standing(cfg, Apply(cfg, s, a), user) == Standing(cfg, s, user)
  {
    CursorsMove(cfg, s, a);
    BarriersKept(cfg, s, a);
  }

  // --- Deposits and withdrawals over a step -------------------------------------------------

  // Two commands that pay in and take out the same.
  ghost predicate SameFunds(c: Command, d: Command) {
    && (forall key :: Deposit(d, key) == Deposit(c, key) && Withdrawal(d, key) == Withdrawal(c, key))
    && (forall asset :: AssetDeposit(d, asset) == AssetDeposit(c, asset))
  }

  lemma SlotFundsKept(cfg: Config, s: State, a: Action, k: nat)
    requires Sound(cfg, s) && Enabled(cfg, s, a) && !a.Admit? && k < |s.slots|
    ensures var t := Apply(cfg, s, a); k < |t.slots| && SameFunds(s.slots[k], t.slots[k])
  {
    if k != Touched(s, a) {
      OthersUntouched(cfg, s, a, k);
    } else {
      match a {
        case Trade(j) => TradeFunds(cfg, s, j);
        case Settle(i) => SettleMoves(cfg, s, i);
        case _ =>
      }
    }
  }

  lemma TradeFunds(cfg: Config, s: State, j: nat)
    requires Sound(cfg, s) && Enabled(cfg, s, Trade(j))
    ensures var t, k := ApplyTrade(cfg, s, j), s.mt[j]; k < |t.slots| && SameFunds(s.slots[k], t.slots[k])
  {
    PipelineSound.TradeIds(cfg, s, j);
    var c, d := s.slots[s.mt[j]], ApplyTrade(cfg, s, j).slots[s.mt[j]];
    assert ForBook(c) || d == c;
  }

  lemma FundsKept(cfg: Config, s: State, a: Action, key: Key)
    requires Sound(cfg, s) && Enabled(cfg, s, a) && !a.Admit?
    ensures var t := Apply(cfg, s, a);
            && Deposited(t, key) == Deposited(s, key) && Withdrawn(t, key) == Withdrawn(s, key)
            && Gross(t, key.asset) == Gross(s, key.asset)
  {
    var t, n, asset := Apply(cfg, s, a), |s.slots|, key.asset;
    CursorsMove(cfg, s, a);
    forall k: nat | k < n
      ensures SlotDeposits(t, key)(k) == SlotDeposits(s, key)(k)
      ensures SlotWithdrawals(t, key)(k) == SlotWithdrawals(s, key)(k)
      ensures AssetDeposits(t, asset)(k) == AssetDeposits(s, asset)(k)
    {
      SlotFundsKept(cfg, s, a, k);
    }
    SumSame(SlotDeposits(t, key), SlotDeposits(s, key), n);
    SumSame(SlotWithdrawals(t, key), SlotWithdrawals(s, key), n);
    SumSame(AssetDeposits(t, asset), AssetDeposits(s, asset), n);
    if a.Publish? {
      NoFundsYet(a.cmd, key);
      var f, g, h := SlotDeposits(t, key), SlotWithdrawals(t, key), AssetDeposits(t, asset);
      assert t.slots[n] == a.cmd && f(n) == g(n) == h(n) == 0;
      assert SumTo(f, n + 1) == SumTo(f, n) && SumTo(g, n + 1) == SumTo(g, n) && SumTo(h, n + 1) == SumTo(h, n);
    }
  }

  // Nothing counts before the first stage has processed it.
  lemma NoFundsYet(c: Command, key: Key)
    requires c.status == Processing
    ensures Deposit(c, key) == Withdrawal(c, key) == AssetDeposit(c, key.asset) == 0
  {
  }

  lemma AdmitFunds(cfg: Config, s: State, i: nat, bestAsk: nat, key: Key)
    requires Sound(cfg, s) && Enabled(cfg, s, Admit(i, bestAsk))
    ensures var t, k := Apply(cfg, s, Admit(i, bestAsk)), s.r1[i];
            && k < |t.slots| == |s.slots|
            && (if Shards.Owns(cfg.riskShards, i, s.slots[k].userId) then
                  && Deposited(t, key) == Deposited(s, key) + Deposit(t.slots[k], key)
                  && Withdrawn(t, key) == Withdrawn(s, key) + Withdrawal(t.slots[k], key)
                  && Gross(t, key.asset) == Gross(s, key.asset) + AssetDeposit(t.slots[k], key.asset)
                else
                  && Deposited(t, key) == Deposited(s, key) && Withdrawn(t, key) == Withdrawn(s, key)
                  && Gross(t, key.asset) == Gross(s, key.asset))
  {
    var t, k, n := Apply(cfg, s, Admit(i, bestAsk)), s.r1[i], |s.slots|;
    AdmitMoves(cfg, s, i, bestAsk);
    forall l: nat | l < n && l != k
      ensures t.slots[l] == s.slots[l]
    {
      OthersUntouched(cfg, s, Admit(i, bestAsk), l);
    }
    if Shards.Owns(cfg.riskShards, i, s.slots[k].userId) {
      UnadmittedWaits(cfg, s, i);
      NoFundsYet(s.slots[k], key);
    }
    SumChange(SlotDeposits(s, key), SlotDeposits(t, key), n, k);
    SumChange(SlotWithdrawals(s, key), SlotWithdrawals(t, key), n, k);
    SumChange(AssetDeposits(s, key.asset), AssetDeposits(t, key.asset), n, k);
  }

  lemma FundsInSplit(c: Command, key: Key)
    ensures FundsIn(c, key) == Deposit(c, key) - Withdrawal(c, key)
  {
  }

  // --- Every balance is accounted for -------------------------------------------------------

  lemma AdmitAccounted(cfg: Config, s: State, i: nat, bestAsk: nat, key: Key)
    requires Backed(cfg, s) && Enabled(cfg, s, Admit(i, bestAsk)) && SupplyFits(cfg, s, Admit(i, bestAsk))
    requires AccountedFor(cfg, s, key)
    ensures var t := Apply(cfg, s, Admit(i, bestAsk)); Laid(cfg, t) && AccountedFor(cfg, t, key)
    ensures Deposited(Apply(cfg, s, Admit(i, bestAsk)), key) >= Deposited(s, key)
  {
    var a, k := Admit(i, bestAsk), s.r1[i];
    var t := Apply(cfg, s, a);
    QuietStanding(cfg, s, a, key.user);
    QuietFlow(cfg, s, a, Standing(cfg, s, key.user), key);
    AdmitFunds(cfg, s, i, bestAsk, key);
    if Shards.Owns(cfg.riskShards, i, s.slots[k].userId) {
      UnadmittedWaits(cfg, s, i);
      PreProcessLocks(s.store, cfg.specs, s.slots[k], bestAsk, key);
      FundsInSplit(t.slots[k], key);
    }
  }

  lemma QuietAccounted(cfg: Config, s: State, a: Action, key: Key)
    requires Sound(cfg, s) && Enabled(cfg, s, a) && !a.Admit? && !a.Settle? && AccountedFor(cfg, s, key)
    ensures Laid(cfg, Apply(cfg, s, a)) && AccountedFor(cfg, Apply(cfg, s, a), key)
  {
    QuietStanding(cfg, s, a, key.user);
    QuietFlow(cfg, s, a, Standing(cfg, s, key.user), key);
    FundsKept(cfg, s, a, key);
    if a.Trade? {
      TradeMoves(cfg, s, a.router);
    }
  }

  // --- Settlement steps -----------------------------------------------------------------------

  // The leg that a settlement step books, as it meets one balance.
  function BookedFlow(cfg: Config, s: State, i: nat, key: Key): int
    requires Laid(cfg, s) && i < cfg.riskShards && s.r2[i] < |s.slots|
  {
    var c, l := s.slots[s.r2[i]], s.leg[i];
    if Settleable(c) && l < LegCount(c) then LegFlow(cfg.specs, c, l, key) else 0
  }

  // A leg meets balances of its own user only.
  lemma LegMeets(specs: seq<Spec>, c: Command, leg: nat, key: Key)
    requires leg < LegCount(c) && key.user != LegUser(c, leg)
    ensures LegFlow(specs, c, leg, key) == 0
  {
  }

  lemma FlowSame(cfg: Config, s: State, t: State, p: Position, key: Key)
    requires t.slots == s.slots
    ensures Flow(cfg, t, p, key) == Flow(cfg, s, p, key)
  {
    SumSame(SlotFlows(cfg, t, p, key), SlotFlows(cfg, s, p, key), |s.slots|);
  }

  // Two positions that differ in one command.
  lemma FlowDiffers(cfg: Config, s: State, p: Position, q: Position, k: nat, key: Key)
    requires k < |s.slots|
    requires forall l: nat :: l < |s.slots| && l != k ==> LegsBefore(s.slots[l], l, p) == LegsBefore(s.slots[l], l, q)
    ensures Flow(cfg, s, p, key) - SlotFlow(cfg, s, p, k, key) == Flow(cfg, s, q, key) - SlotFlow(cfg, s, q, k, key)
  {
    SumChange(SlotFlows(cfg, s, q, key), SlotFlows(cfg, s, p, key), |s.slots|, k);
  }

  // From the leg at a position to the positions behind it, up to the next leg or
  // the next command.
  lemma FlowNext(cfg: Config, s: State, k: nat, l: nat, p: Position, key: Key)
    requires k < |s.slots|
    requires var c := s.slots[k];
             if Settleable(c) && l < LegCount(c) then p == Position(k, l + 1)
             else (p.slot == k && p.leg > l) || p == Position(k + 1, 0)
    ensures var c := s.slots[k];
            Flow(cfg, s, p, key)
            == Flow(cfg, s, Position(k, l), key)
               + (if Settleable(c) && l < LegCount(c) then LegFlow(cfg.specs, c, l, key) else 0)
  {
    FlowDiffers(cfg, s, p, Position(k, l), k, key);
  }

  lemma FlowMoves(cfg: Config, s: State, i: nat, p: Position, key: Key)
    requires Sound(cfg, s) && Enabled(cfg, s, Settle(i))
    requires var t := Apply(cfg, s, Settle(i));
             Laid(cfg, t) && Within(p, Position(t.r2[i], t.leg[i])) && !Within(p, Position(s.r2[i], s.leg[i]))
    ensures Flow(cfg, s, p, key)
         == Flow(cfg, s, Position(s.r2[i], s.leg[i]), key) + BookedFlow(cfg, s, i, key)
  {
    SettleMoves(cfg, s, i);
    FlowNext(cfg, s, s.r2[i], s.leg[i], p, key);
  }

  lemma SettleStanding(cfg: Config, s: State, i: nat, user: nat)
    requires Sound(cfg, s) && Enabled(cfg, s, Settle(i))
    ensures var t := Apply(cfg, s, Settle(i));
            && Laid(cfg, t)
            && Standing(cfg, t, user) == (if user % cfg.riskShards == i then Position(t.r2[i], t.leg[i])
                                          else Standing(cfg, s, user))
            && !Within(Position(t.r2[i], t.leg[i]), Position(s.r2[i], s.leg[i]))
  {
    SettleMoves(cfg, s, i);
    HomeInRange(cfg.riskShards, user);
  }

  // A step changes a balance by the leg it books, and only for its own users.
  lemma SettleTotals(cfg: Config, s: State, i: nat, key: Key)
    requires Backed(cfg, s) && Enabled(cfg, s, Settle(i))
    ensures var before, after := Get(s.store, key), Get(Apply(cfg, s, Settle(i)).store, key);
            after.available + after.locked
            == before.available + before.locked
               + (if key.user % cfg.riskShards == i then BookedFlow(cfg, s, i, key) else 0)
  {
    var c, l := s.slots[s.r2[i]], s.leg[i];
    Shards.OneOwner(cfg.riskShards, PartUser(c, l));
    if Settleable(c) && Shards.Owns(cfg.riskShards, i, PartUser(c, l)) {
      var spec := SettleSucceeds(cfg, s, i);
      if l < LegCount(c) {
        assert BookedAt(spec, c, l, s.store, SettleLeg(s.store, cfg.specs, c, l).store, key);
      } else if ReleaseDue(c) {
        assert FreedAt(spec, c, s.store, Release(s.store, cfg.specs, c).store, key);
      }
    }
    if l < LegCount(c) && key.user != LegUser(c, l) {
      LegMeets(cfg.specs, c, l, key);
    }
  }

  lemma SettleAccounted(cfg: Config, s: State, i: nat, key: Key)
    requires Backed(cfg, s) && Enabled(cfg, s, Settle(i)) && AccountedFor(cfg, s, key)
    ensures var t := Apply(cfg, s, Settle(i)); Laid(cfg, t) && AccountedFor(cfg, t, key)
  {
    var t := Apply(cfg, s, Settle(i));
    SettleMoves(cfg, s, i);
    SettleStanding(cfg, s, i, key.user);
    SettleTotals(cfg, s, i, key);
    FundsKept(cfg, s, Settle(i), key);
    FlowSame(cfg, s, t, Standing(cfg, t, key.user), key);
    if key.user % cfg.riskShards == i {
      FlowMoves(cfg, s, i, Standing(cfg, t, key.user), key);
    }
  }

  lemma SettleShort(cfg: Config, s: State, i: nat, key: Key)
    requires Backed(cfg, s) && Enabled(cfg, s, Settle(i)) && AccountedFor(cfg, s, key) && NeverShort(cfg, s, key)
    ensures var t := Apply(cfg, s, Settle(i)); Laid(cfg, t) && NeverShort(cfg, t, key)
  {
    var t := Apply(cfg, s, Settle(i));
    SettleMoves(cfg, s, i);
    SettleStanding(cfg, s, i, key.user);
    SettleAccounted(cfg, s, i, key);
    FundsKept(cfg, s, Settle(i), key);
    var now := Standing(cfg, t, key.user);
    forall p | Within(p, now)
      ensures Deposited(t, key) + Flow(cfg, t, p, key) >= 0
    {
      FlowSame(cfg, s, t, p, key);
      if !Within(p, Standing(cfg, s, key.user)) {
        FlowMoves(cfg, s, i, p, key);
        FlowMoves(cfg, s, i, now, key);
        FlowSame(cfg, s, t, now, key);
        StandingCovered(cfg, t, key);
      }
    }
  }

  lemma QuietShort(cfg: Config, s: State, a: Action, key: Key)
    requires Sound(cfg, s) && Enabled(cfg, s, a) && !a.Settle? && NeverShort(cfg, s, key)
    requires Deposited(Apply(cfg, s, a), key) >= Deposited(s, key)
    ensures Laid(cfg, Apply(cfg, s, a)) && NeverShort(cfg, Apply(cfg, s, a), key)
  {
    var t := Apply(cfg, s, a);
    QuietStanding(cfg, s, a, key.user);
    forall p | Within(p, Standing(cfg, t, key.user))
      ensures Deposited(t, key) + Flow(cfg, t, p, key) >= 0
    {
      QuietFlow(cfg, s, a, p, key);
    }
  }

  lemma StepAccounts(cfg: Config, s: State, a: Action)
    requires Backed(cfg, s) && Accounts(cfg, s) && Enabled(cfg, s, a) && SupplyFits(cfg, s, a)
    ensures Laid(cfg, Apply(cfg, s, a)) && Accounts(cfg, Apply(cfg, s, a))
  {
    var t := Apply(cfg, s, a);
    BarriersKept(cfg, s, a);
    forall key
      ensures AccountedFor(cfg, t, key) && NeverShort(cfg, t, key)
    {
      assert AccountedFor(cfg, s, key) && NeverShort(cfg, s, key);
      match a {
        case Settle(i) =>
          SettleAccounted(cfg, s, i, key);
          SettleShort(cfg, s, i, key);
        case Admit(i, bestAsk) =>
          AdmitAccounted(cfg, s, i, bestAsk, key);
          QuietShort(cfg, s, a, key);
        case _ =>
          QuietAccounted(cfg, s, a, key);
          FundsKept(cfg, s, a, key);
          QuietShort(cfg, s, a, key);
      }
    }
  }
}
