// A run in which a lock wraps although net deposits fit a machine word throughout:
// one user sells everything, the buyer's shard settles first and the buyer takes the
// goods out; the seller pays in once more and offers it before the seller's own
// shard has settled the first trade. What was deposited in all does not fit.
module LockWrap {
  import opened Orders
  import opened PriceTime
  import opened BookRuns
  import opened QuoteMath
  import opened Ledger
  import opened Pipeline
  import BalanceBound
  import Shards

  const MARKET: nat := 0x1_0000
  const SPEC := Spec(MARKET, 1, 1, 1, 0, 0, 0)
  const CFG := Config([SPEC], 2, 1)

  const SELLER: nat := 0
  const BUYER: nat := 1
  const GOODS := Key(SELLER, 0)
  const BOUGHT := Key(BUYER, 0)
  const MONEY := Key(BUYER, 1)

  function Funds(kind: CommandType, user: nat, id: nat): Command {
    Command(kind, 0, id, user, 0, 0, U64_MAX, Bid, Gtc, 0, Processing, [], None, 0, 0)
  }

  function Limit(user: nat, side: Side, id: nat): Command {
    Command(PlaceOrder, 0, id, user, MARKET, 0, U64_MAX, side, Gtc, 0, Processing, [], None, 0, 0)
  }

  const FIRST := Funds(DepositFunds, SELLER, 0)
  const SELL := Limit(SELLER, Ask, 1)
  const BUY := Limit(BUYER, Bid, 2)
  const TAKE := Funds(WithdrawFunds, BUYER, 3)
  const AGAIN := Funds(DepositFunds, SELLER, 4)
  const LAST := Limit(SELLER, Ask, 5)

  // --- Runs piece by piece ----------------------------------------------------------------

  ghost predicate Leads(s: State, actions: seq<Action>, t: State) {
    Possible(CFG, s, actions) && After(CFG, s, actions) == t
  }

  lemma {:induction false} Joined(s: State, a: seq<Action>, t: State, b: seq<Action>, u: State)
    requires Leads(s, a, t) && Leads(t, b, u)
    ensures Leads(s, a + b, u)
    decreases |a|
  {
    if a == [] {
      assert a + b == b;
    } else {
      assert (a + b)[0] == a[0] && (a + b)[1..] == a[1..] + b;
      Joined(Apply(CFG, s, a[0]), a[1..], t, b, u);
    }
  }

  lemma OneMore(s: State, actions: seq<Action>, t: State, a: Action)
    requires Leads(s, actions, t) && Enabled(CFG, t, a) && SupplyFits(CFG, t, a)
    ensures Leads(s, actions + [a], Apply(CFG, t, a))
  {
    assert [a][1..] == [];
    assert Leads(Apply(CFG, t, a), [], Apply(CFG, t, a));
    assert Leads(t, [a], Apply(CFG, t, a));
    Joined(s, actions, t, [a], Apply(CFG, t, a));
  }

  // --- Who owns what ------------------------------------------------------------------------

  lemma Owners()
    ensures Shards.Owns(2, 0, SELLER) && !Shards.Owns(2, 1, SELLER)
    ensures Shards.Owns(2, 1, BUYER) && !Shards.Owns(2, 0, BUYER)
    ensures Shards.Owns(1, 0, MARKET)
    ensures GoodConfig(CFG)
  {
    assert Shards.Pow2(0) == 1 && Shards.Pow2(1) == 2;
    assert Shards.BitAnd(0, 0) == 0;
  }

  lemma Costs(size: nat)
    ensures BaseAsset(MARKET) == 0 && QuoteAsset(MARKET) == 1
    ensures QuoteCost(SPEC, 0, size) == 0 && Fits(SPEC, 0, size)
  {
    FreeAtZero(SPEC, size);
  }

  // --- The state as it unfolds --------------------------------------------------------------

  // Nobody is ahead of the buyer's settlement shard, and the seller's has not begun.
  predicate Scene(s: State, log: seq<Command>, journaled: nat, admitted: (nat, nat), matched: nat, settled: nat,
                  leg: nat)
  {
    && s.slots == log && s.journaled == journaled == s.bound
    && s.r1 == [admitted.0, admitted.1] && s.mt == [matched] && s.r2 == [0, settled] && s.leg == [0, leg]
  }

  // Net deposits of the goods, and none of anything else.
  ghost predicate Nets(m: map<nat, int>, net: int) {
    forall asset :: At(m, asset) == if asset == 0 then net else 0
  }

  lemma NetsMove(m: map<nat, int>, net: int, amount: int)
    requires Nets(m, net)
    ensures Nets(Plus(m, 0, amount), net + amount)
  {
    forall asset
      ensures At(Plus(m, 0, amount), asset) == if asset == 0 then net + amount else 0
    {
      assert At(m, asset) == if asset == 0 then net else 0;
    }
  }

  // What seller and buyer have of the goods, and net deposits.
  ghost predicate Have(s: State, seller: Balance, buyer: Balance, net: nat) {
    && Get(s.store, GOODS) == seller && Get(s.store, BOUGHT) == buyer && Get(s.store, MONEY) == Balance(0, 0)
    && net <= U64_MAX && Nets(s.net, net)
  }

  lemma Publishes(s: State, log: seq<Command>, c: Command, seller: Balance, buyer: Balance, net: nat)
    requires Scene(s, log, 0, (0, 0), 0, 0, 0) && Have(s, seller, buyer, net) && |s.books| == 1 && Incoming(c)
    ensures Enabled(CFG, s, Publish(c)) && SupplyFits(CFG, s, Publish(c))
    ensures var t := Apply(CFG, s, Publish(c));
            Scene(t, log + [c], 0, (0, 0), 0, 0, 0) && Have(t, seller, buyer, net) && t.books == s.books
  {
  }
  lemma Journals(s: State, log: seq<Command>, j: nat, seller: Balance, buyer: Balance, net: nat)
    requires Scene(s, log, j, (0, 0), 0, 0, 0) && Have(s, seller, buyer, net) && |s.books| == 1
    requires j < |log| && log[j].kind != CancelOrder && log[j].orderId == j && log[j].timestamp == 0
    ensures Enabled(CFG, s, Journal(j, 0)) && SupplyFits(CFG, s, Journal(j, 0))
    ensures var t := Apply(CFG, s, Journal(j, 0));
            Scene(t, log, j + 1, (0, 0), 0, 0, 0) && Have(t, seller, buyer, net) && t.books == s.books
  {
    assert Stamped(log[j], j, 0) == log[j] && log[j := log[j]] == log;
  }

  // --- First stage ----------------------------------------------------------------------------

  function Bumped(admitted: (nat, nat), i: nat): (nat, nat) {
    if i == 0 then (admitted.0 + 1, admitted.1) else (admitted.0, admitted.1 + 1)
  }

  function Ahead(admitted: (nat, nat), i: nat): nat {
    if i == 0 then admitted.0 else admitted.1
  }

  // The other shard lets a command pass.
  lemma AdmitPasses(s: State, log: seq<Command>, j: nat, admitted: (nat, nat), m: nat, z: nat, l: nat, i: nat,
                    seller: Balance, buyer: Balance, net: nat)
    requires Scene(s, log, j, admitted, m, z, l) && Have(s, seller, buyer, net) && |s.books| == 1
    requires i < 2 && Ahead(admitted, i) < |log| && !Shards.Owns(2, i, log[Ahead(admitted, i)].userId)
    ensures Enabled(CFG, s, Admit(i, 0)) && SupplyFits(CFG, s, Admit(i, 0))
    ensures var t := Apply(CFG, s, Admit(i, 0));
            Scene(t, log, j, Bumped(admitted, i), m, z, l) && Have(t, seller, buyer, net) && t.books == s.books
  {
  }

  lemma AdmitDeposit(s: State, log: seq<Command>, j: nat, admitted: (nat, nat), m: nat, z: nat, l: nat, locked: nat)
    requires Scene(s, log, j, admitted, m, z, l) && Have(s, Balance(0, locked), Balance(0, 0), 0) && |s.books| == 1
    requires admitted.0 < |log|
    requires log[admitted.0] == FIRST || log[admitted.0] == AGAIN
    ensures Enabled(CFG, s, Admit(0, 0)) && SupplyFits(CFG, s, Admit(0, 0))
    ensures var t, k := Apply(CFG, s, Admit(0, 0)), admitted.0;
            && Scene(t, log[k := log[k].(status := Processed)], j, Bumped(admitted, 0), m, z, l)
            && Have(t, Balance(U64_MAX, locked), Balance(0, 0), U64_MAX) && t.books == s.books
  {
    Owners();
    var c := log[admitted.0];
    assert FundsKey(c) == GOODS;
    assert AddFunds(s.store, GOODS, U64_MAX) == Posting(s.store[GOODS := Balance(U64_MAX, locked)], Ok);
    assert PreProcess(s.store, CFG.specs, c, 0)
        == (s.store[GOODS := Balance(U64_MAX, locked)], c.(status := Processed));
    NetsMove(s.net, 0, U64_MAX);
  }

  lemma AdmitTake(s: State, log: seq<Command>, j: nat, admitted: (nat, nat), m: nat, z: nat, l: nat, seller: Balance)
    requires Scene(s, log, j, admitted, m, z, l) && Have(s, seller, Balance(U64_MAX, 0), U64_MAX) && |s.books| == 1
    requires admitted.1 < |log| && log[admitted.1] == TAKE
    ensures Enabled(CFG, s, Admit(1, 0)) && SupplyFits(CFG, s, Admit(1, 0))
    ensures var t, k := Apply(CFG, s, Admit(1, 0)), admitted.1;
            && Scene(t, log[k := log[k].(status := Processed)], j, Bumped(admitted, 1), m, z, l)
            && Have(t, seller, Balance(0, 0), 0) && t.books == s.books
  {
    Owners();
    assert FundsKey(TAKE) == BOUGHT;
    assert PreProcess(s.store, CFG.specs, TAKE, 0) == (s.store[BOUGHT := Balance(0, 0)], TAKE.(status := Processed));
    NetsMove(s.net, U64_MAX, 0 - U64_MAX as int);
  }

  lemma AdmitSell(s: State, log: seq<Command>, j: nat, admitted: (nat, nat), m: nat, z: nat, l: nat)
    requires Scene(s, log, j, admitted, m, z, l) && |s.books| == 1
    requires Have(s, Balance(U64_MAX, 0), Balance(0, 0), U64_MAX)
    requires admitted.0 < |log| && log[admitted.0] == SELL
    ensures Enabled(CFG, s, Admit(0, 0)) && SupplyFits(CFG, s, Admit(0, 0))
    ensures var t := Apply(CFG, s, Admit(0, 0));
            && Scene(t, log, j, Bumped(admitted, 0), m, z, l)
            && Have(t, Balance(0, U64_MAX), Balance(0, 0), U64_MAX) && t.books == s.books
  {
    Owners();
    Costs(U64_MAX);
    assert log[admitted.0 := SELL] == log;
  }

  lemma AdmitBuy(s: State, log: seq<Command>, j: nat, admitted: (nat, nat), m: nat, z: nat, l: nat, seller: Balance)
    requires Scene(s, log, j, admitted, m, z, l) && |s.books| == 1
    requires Have(s, seller, Balance(0, 0), U64_MAX)
    requires admitted.1 < |log| && log[admitted.1] == BUY
    ensures Enabled(CFG, s, Admit(1, 0)) && SupplyFits(CFG, s, Admit(1, 0))
    ensures var t := Apply(CFG, s, Admit(1, 0));
            && Scene(t, log, j, Bumped(admitted, 1), m, z, l)
            && Have(t, seller, Balance(0, 0), U64_MAX) && t.books == s.books
  {
    Owners();
    Costs(U64_MAX);
    assert log[admitted.1 := BUY] == log;
  }

  // --- Matching -------------------------------------------------------------------------------

  lemma TradePasses(s: State, log: seq<Command>, j: nat, admitted: (nat, nat), m: nat, z: nat, l: nat,
                    seller: Balance, buyer: Balance, net: nat)
    requires Scene(s, log, j, admitted, m, z, l) && Have(s, seller, buyer, net) && |s.books| == 1
    requires m < j <= |log| && m < admitted.0 && m < admitted.1 && !ForBook(log[m])
    ensures Enabled(CFG, s, Action.Trade(0)) && SupplyFits(CFG, s, Action.Trade(0))
    ensures var t := Apply(CFG, s, Action.Trade(0));
            Scene(t, log, j, admitted, m + 1, z, l) && Have(t, seller, buyer, net) && t.books == s.books
  {
  }

  lemma TradeHandsOver(s: State, log: seq<Command>, j: nat, admitted: (nat, nat), m: nat, z: nat, l: nat,
                     seller: Balance, buyer: Balance, net: nat)
    requires Scene(s, log, j, admitted, m, z, l) && Have(s, seller, buyer, net) && |s.books| == 1
    requires m < j <= |log| && m < admitted.0 && m < admitted.1
    requires log[m].kind == PlaceOrder && log[m].status == Processing && log[m].marketId == MARKET
    ensures Enabled(CFG, s, Action.Trade(0)) && SupplyFits(CFG, s, Action.Trade(0))
    ensures var t, r := Apply(CFG, s, Action.Trade(0)), Place(s.books[0], log[m]);
            && Scene(t, log[m := r.cmd], j, admitted, m + 1, z, l) && Have(t, seller, buyer, net)
            && t.books == [r.book]
  {
    HandsOver(s, m, log[m]);
  }

  lemma HandsOver(s: State, m: nat, c: Command)
    requires Laid(CFG, s) && s.mt == [m] && m < |s.slots| && s.slots[m] == c
    requires c.kind == PlaceOrder && c.status == Processing && c.marketId == MARKET
    ensures var r := Place(s.books[0], c);
            ApplyTrade(CFG, s, 0)
            == s.(mt := [m + 1], slots := s.slots[m := r.cmd], books := [r.book],
                  matched := s.matched + multiset{(m, 0)})
  {
    Owners();
    assert MarketIndex(CFG.specs, MARKET) == Some(0);
    assert Bump(s.mt, 0) == [m + 1] && s.books[0 := Place(s.books[0], c).book] == [Place(s.books[0], c).book];
  }

  predicate Sold(c: Command) {
    && c.status == Filled && c.userId == BUYER && c.marketId == MARKET && c.side == Bid && c.price == 0
    && |c.events| == 1
    && c.events[0].makerUser == SELLER && c.events[0].price == 0 && c.events[0].size == U64_MAX
  }

  const OFFERED := Place(EMPTY_BOOK, SELL)
  const TAKEN := Place(OFFERED.book, BUY)

  // The offer rests; the buyer takes all of it.
  lemma Sale()
    ensures OFFERED.cmd.status == Placed && OFFERED.cmd.events == [] && Sold(TAKEN.cmd)
  {
    var x := RestingOrder(SELL, U64_MAX);
    assert Sweep(TakerOf(SELL), [], U64_MAX) == Swept([], [], U64_MAX);
    assert OFFERED.book.asks == [x];
    assert [x][1..] == [];
  }

  // --- Second stage, on the buyer's shard -------------------------------------------------------

  lemma SettlePasses(s: State, log: seq<Command>, j: nat, admitted: (nat, nat), m: nat, z: nat,
                     seller: Balance, buyer: Balance, net: nat)
    requires Scene(s, log, j, admitted, m, z, 0) && Have(s, seller, buyer, net) && |s.books| == 1
    requires z < m && z < |log|
    requires log[z].status == Processed || (log[z].status == Placed && log[z].events == [])
    ensures Enabled(CFG, s, Settle(1)) && SupplyFits(CFG, s, Settle(1))
    ensures var t := Apply(CFG, s, Settle(1));
            Scene(t, log, j, admitted, m, z + 1, 0) && Have(t, seller, buyer, net) && t.books == s.books
  {
  }

  lemma SettleSkips(s: State, log: seq<Command>, j: nat, admitted: (nat, nat), m: nat, z: nat,
                    seller: Balance, buyer: Balance, net: nat)
    requires Scene(s, log, j, admitted, m, z, 0) && Have(s, seller, buyer, net) && |s.books| == 1
    requires z < m && z < |log| && Sold(log[z])
    ensures Enabled(CFG, s, Settle(1)) && SupplyFits(CFG, s, Settle(1))
    ensures var t := Apply(CFG, s, Settle(1));
            Scene(t, log, j, admitted, m, z, 1) && Have(t, seller, buyer, net) && t.books == s.books
  {
    Owners();
  }

  lemma BuyerLeg(store: Store, c: Command, seller: Balance)
    requires Sold(c)
    requires Get(store, GOODS) == seller && Get(store, BOUGHT) == Balance(0, 0) && Get(store, MONEY) == Balance(0, 0)
    ensures var p := SettleLeg(store, CFG.specs, c, 1);
            && p.result == Ok && Get(p.store, GOODS) == seller && Get(p.store, BOUGHT) == Balance(U64_MAX, 0)
            && Get(p.store, MONEY) == Balance(0, 0)
  {
    var e := c.events[0];
    Costs(U64_MAX);
    assert TradeTerms(SPEC, BUYER, MARKET, Bid, e) == Terms(MONEY, 0, BOUGHT, U64_MAX, 0);
    var paid := SubtractLockedFunds(store, MONEY, 0);
    assert paid == Posting(store[MONEY := Balance(0, 0)], Ok);
    assert SettleLeg(store, CFG.specs, c, 1) == AddFunds(paid.store, BOUGHT, U64_MAX);
  }

  lemma SettleBuys(s: State, log: seq<Command>, j: nat, admitted: (nat, nat), m: nat, z: nat,
                   seller: Balance, net: nat)
    requires Scene(s, log, j, admitted, m, z, 1) && Have(s, seller, Balance(0, 0), net) && |s.books| == 1
    requires z < m && z < |log| && Sold(log[z])
    ensures Enabled(CFG, s, Settle(1)) && SupplyFits(CFG, s, Settle(1))
    ensures var t := Apply(CFG, s, Settle(1));
            && Scene(t, log, j, admitted, m, z, 2) && Have(t, seller, Balance(U64_MAX, 0), net)
            && t.books == s.books
  {
    Owners();
    BuyerLeg(s.store, log[z], seller);
  }

  // --- The run ----------------------------------------------------------------------------------

  const LOG := [FIRST, SELL, BUY, TAKE, AGAIN, LAST]

  // One more step of a run.
  lemma Go(s: State, actions: seq<Action>, t: State, a: Action) returns (more: seq<Action>, u: State)
    requires Leads(s, actions, t) && Enabled(CFG, t, a) && SupplyFits(CFG, t, a)
    ensures Leads(s, more, u) && u == Apply(CFG, t, a)
  {
    OneMore(s, actions, t, a);
    more, u := actions + [a], Apply(CFG, t, a);
  }

  lemma {:induction false} Opens(n: nat) returns (actions: seq<Action>, t: State)
    requires n <= |LOG|
    ensures Leads(Initial(CFG), actions, t) && t.books == [EMPTY_BOOK]
    ensures Scene(t, LOG[..n], 0, (0, 0), 0, 0, 0) && Have(t, Balance(0, 0), Balance(0, 0), 0)
  {
    if n == 0 {
      actions, t := [], Initial(CFG);
    } else {
      actions, t := Opens(n - 1);
      var c := LOG[n - 1];
      assert Incoming(c) && LOG[..n] == LOG[..n - 1] + [c];
      Publishes(t, LOG[..n - 1], c, Balance(0, 0), Balance(0, 0), 0);
      actions, t := Go(Initial(CFG), actions, t, Publish(c));
    }
  }

  lemma {:induction false} Journaled(n: nat) returns (actions: seq<Action>, t: State)
    requires n <= 3
    ensures Leads(Initial(CFG), actions, t) && t.books == [EMPTY_BOOK]
    ensures Scene(t, LOG, n, (0, 0), 0, 0, 0) && Have(t, Balance(0, 0), Balance(0, 0), 0)
  {
    if n == 0 {
      actions, t := Opens(|LOG|);
      assert LOG[..|LOG|] == LOG;
    } else {
      actions, t := Journaled(n - 1);
      assert LOG[n - 1].orderId == n - 1 && LOG[n - 1].timestamp == 0;
      Journals(t, LOG, n - 1, Balance(0, 0), Balance(0, 0), 0);
      actions, t := Go(Initial(CFG), actions, t, Journal(n - 1, 0));
    }
  }

  // The log once the first deposit is processed.
  predicate Entered(log: seq<Command>) {
    && |log| == 6 && log[0].status == Processed && log[0].userId == SELLER && !ForBook(log[0])
    && log[1] == SELL && log[2] == BUY && log[3] == TAKE && log[4] == AGAIN && log[5] == LAST
  }

  lemma DepositAdmitted() returns (actions: seq<Action>, t: State, log: seq<Command>)
    ensures Leads(Initial(CFG), actions, t) && t.books == [EMPTY_BOOK] && Entered(log)
    ensures Scene(t, log, 3, (1, 0), 0, 0, 0) && Have(t, Balance(U64_MAX, 0), Balance(0, 0), U64_MAX)
  {
    actions, t, log := AllJournaled();
    AdmitDeposit(t, log, 3, (0, 0), 0, 0, 0, 0);
    actions, t := Go(Initial(CFG), actions, t, Admit(0, 0));
    log := log[0 := FIRST.(status := Processed)];
  }

  lemma AllJournaled() returns (actions: seq<Action>, t: State, log: seq<Command>)
    ensures Leads(Initial(CFG), actions, t) && t.books == [EMPTY_BOOK]
    ensures Scene(t, log, 3, (0, 0), 0, 0, 0) && Have(t, Balance(0, 0), Balance(0, 0), 0)
    ensures |log| == 6 && log[0] == FIRST && log[1] == SELL && log[2] == BUY
    ensures log[3] == TAKE && log[4] == AGAIN && log[5] == LAST
  {
    actions, t := Journaled(3);
    log := LOG;
  }

  lemma SellerAdmitted() returns (actions: seq<Action>, t: State, log: seq<Command>)
    ensures Leads(Initial(CFG), actions, t) && t.books == [EMPTY_BOOK] && Entered(log)
    ensures Scene(t, log, 3, (3, 0), 0, 0, 0) && Have(t, Balance(0, U64_MAX), Balance(0, 0), U64_MAX)
  {
    Owners();
    actions, t, log := DepositAdmitted();
    AdmitSell(t, log, 3, (1, 0), 0, 0, 0);
    actions, t := Go(Initial(CFG), actions, t, Admit(0, 0));
    AdmitPasses(t, log, 3, (2, 0), 0, 0, 0, 0, Balance(0, U64_MAX), Balance(0, 0), U64_MAX);
    actions, t := Go(Initial(CFG), actions, t, Admit(0, 0));
  }

  lemma BothAdmitted() returns (actions: seq<Action>, t: State, log: seq<Command>)
    ensures Leads(Initial(CFG), actions, t) && t.books == [EMPTY_BOOK] && Entered(log)
    ensures Scene(t, log, 3, (3, 3), 0, 0, 0) && Have(t, Balance(0, U64_MAX), Balance(0, 0), U64_MAX)
  {
    Owners();
    var seller, buyer := Balance(0, U64_MAX), Balance(0, 0);
    actions, t, log := SellerAdmitted();
    AdmitPasses(t, log, 3, (3, 0), 0, 0, 0, 1, seller, buyer, U64_MAX);
    actions, t := Go(Initial(CFG), actions, t, Admit(1, 0));
    AdmitPasses(t, log, 3, (3, 1), 0, 0, 0, 1, seller, buyer, U64_MAX);
    actions, t := Go(Initial(CFG), actions, t, Admit(1, 0));
    AdmitBuy(t, log, 3, (3, 2), 0, 0, 0, seller);
    actions, t := Go(Initial(CFG), actions, t, Admit(1, 0));
  }

  // The log once the sale is on it.
  predicate OnLog(log: seq<Command>) {
    && |log| == 6 && log[0].status == Processed && log[1].status == Placed && log[1].events == [] && Sold(log[2])
    && log[3] == TAKE && log[4] == AGAIN && log[5] == LAST
  }

  lemma OfferMatched() returns (actions: seq<Action>, t: State, log: seq<Command>)
    ensures Leads(Initial(CFG), actions, t) && t.books == [OFFERED.book] && Entered(log)
    ensures Scene(t, log[1 := OFFERED.cmd], 3, (3, 3), 2, 0, 0)
    ensures Have(t, Balance(0, U64_MAX), Balance(0, 0), U64_MAX)
  {
    actions, t, log := BothAdmitted();
    TradePasses(t, log, 3, (3, 3), 0, 0, 0, Balance(0, U64_MAX), Balance(0, 0), U64_MAX);
    actions, t := Go(Initial(CFG), actions, t, Action.Trade(0));
    TradeHandsOver(t, log, 3, (3, 3), 1, 0, 0, Balance(0, U64_MAX), Balance(0, 0), U64_MAX);
    actions, t := Go(Initial(CFG), actions, t, Action.Trade(0));
  }

  lemma SaleMatched() returns (actions: seq<Action>, t: State, log: seq<Command>)
    ensures Leads(Initial(CFG), actions, t) && |t.books| == 1 && OnLog(log)
    ensures Scene(t, log, 3, (3, 3), 3, 0, 0) && Have(t, Balance(0, U64_MAX), Balance(0, 0), U64_MAX)
  {
    actions, t, log := OfferMatched();
    TradeHandsOver(t, log[1 := OFFERED.cmd], 3, (3, 3), 2, 0, 0, Balance(0, U64_MAX), Balance(0, 0), U64_MAX);
    actions, t := Go(Initial(CFG), actions, t, Action.Trade(0));
    Sale();
    Rewritten(log, OFFERED.cmd, TAKEN.cmd);
    log := t.slots;
  }

  lemma Rewritten(log: seq<Command>, offered: Command, taken: Command)
    requires Entered(log) && offered.status == Placed && offered.events == [] && Sold(taken)
    ensures OnLog(log[1 := offered][2 := taken])
  {
  }

  lemma BuyerSettled() returns (actions: seq<Action>, t: State, log: seq<Command>)
    ensures Leads(Initial(CFG), actions, t) && |t.books| == 1 && OnLog(log)
    ensures Scene(t, log, 3, (3, 3), 3, 2, 2) && Have(t, Balance(0, U64_MAX), Balance(U64_MAX, 0), U64_MAX)
  {
    var seller, buyer := Balance(0, U64_MAX), Balance(0, 0);
    actions, t, log := SaleMatched();
    SettlePasses(t, log, 3, (3, 3), 3, 0, seller, buyer, U64_MAX);
    actions, t := Go(Initial(CFG), actions, t, Settle(1));
    SettlePasses(t, log, 3, (3, 3), 3, 1, seller, buyer, U64_MAX);
    actions, t := Go(Initial(CFG), actions, t, Settle(1));
    SettleSkips(t, log, 3, (3, 3), 3, 2, seller, buyer, U64_MAX);
    actions, t := Go(Initial(CFG), actions, t, Settle(1));
    SettleBuys(t, log, 3, (3, 3), 3, 2, seller, U64_MAX);
    actions, t := Go(Initial(CFG), actions, t, Settle(1));
  }

  lemma PaidAgain() returns (actions: seq<Action>, t: State, log: seq<Command>)
    ensures Leads(Initial(CFG), actions, t) && |t.books| == 1 && |log| == 6 && log[5] == LAST
    ensures Scene(t, log, 3, (5, 4), 3, 2, 2) && Have(t, Balance(U64_MAX, U64_MAX), Balance(0, 0), U64_MAX)
  {
    Owners();
    actions, t, log := BuyerSettled();
    AdmitTake(t, log, 3, (3, 3), 3, 2, 2, Balance(0, U64_MAX));
    actions, t := Go(Initial(CFG), actions, t, Admit(1, 0));
    log := log[3 := TAKE.(status := Processed)];
    AdmitPasses(t, log, 3, (3, 4), 3, 2, 2, 0, Balance(0, U64_MAX), Balance(0, 0), 0);
    actions, t := Go(Initial(CFG), actions, t, Admit(0, 0));
    AdmitDeposit(t, log, 3, (4, 4), 3, 2, 2, U64_MAX);
    actions, t := Go(Initial(CFG), actions, t, Admit(0, 0));
    log := log[4 := AGAIN.(status := Processed)];
  }

  // The last offer of the run is admitted with net deposits within a machine word,
  // and its lock wraps: 2^64 - 1 more units locked leave one unit less.
  lemma LockWraps() returns (actions: seq<Action>)
    ensures GoodConfig(CFG) && Possible(CFG, Initial(CFG), actions)
    ensures var s := After(CFG, Initial(CFG), actions);
            && Enabled(CFG, s, Admit(0, 0)) && BalanceBound.ReservationsFit(CFG, s, Admit(0, 0))
            && NetFits(Apply(CFG, s, Admit(0, 0))) && !SupplyFits(CFG, s, Admit(0, 0))
            && Get(s.store, GOODS) == Balance(U64_MAX, U64_MAX)
            && Get(Apply(CFG, s, Admit(0, 0)).store, GOODS) == Balance(0, U64_MAX - 1)
  {
    Owners();
    Costs(U64_MAX);
    var t, log;
    actions, t, log := PaidAgain();
    assert Wrap64(U64_MAX + U64_MAX) == U64_MAX - 1;
    var after := t.store[GOODS := Balance(0, U64_MAX - 1)];
    assert LockFunds(t.store, GOODS, U64_MAX) == Posting(after, Ok);
    assert PreProcess(t.store, CFG.specs, LAST, 0) == (after, LAST);
  }
}
