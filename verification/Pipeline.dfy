// The staged pipeline as a step relation. Commands enter a log; the journaling
// thread and the first risk shards form one group, the matching shards wait for
// all of that group, and the second risk shards wait for all matching shards.
// Every thread has its own cursor, and threads of a group are not ordered among
// themselves. Each section that runs under a balance lock is one step, so a
// second-stage shard takes one step per leg of a trade. A shard that reserves a
// market buy reads the shared price cache at some earlier moment; the step takes
// that reading as an arbitrary number.
module Pipeline {
  import opened Orders
  import PriceTime
  import BookRuns
  import opened QuoteMath
  import opened Ledger
  import opened Shards

  datatype Config = Config(specs: seq<Spec>, riskShards: nat, matchShards: nat)

  datatype State = State(
    slots: seq<Command>,      // the log; a command is rewritten in place
    journaled: nat,           // cursor of the journaling thread
    r1: seq<nat>,             // cursors of the first risk stage
    mt: seq<nat>,             // cursors of the matching stage
    r2: seq<nat>,             // cursors of the second risk stage
    leg: seq<nat>,            // position inside the command at r2
    books: seq<PriceTime.Book>,         // one per configured market
    store: Store,             // all shards; a shard only touches its own users
    bound: nat,               // least id the generator may still issue
    net: map<nat, int>,       // history: deposits less withdrawals, per asset
    fees: map<nat, int>,      // history: fees removed, per asset
    settled: multiset<(nat, nat)>, // history: legs and releases that were booked
    matched: multiset<(nat, nat)>) // history: commands handed to a book, by shard

  datatype Action =
    | Publish(cmd: Command)
    | Journal(id: nat, timestamp: nat)
    | Admit(shard: nat, bestAsk: nat)
    | Trade(router: nat)
    | Settle(shard: nat)

  ghost predicate GoodConfig(cfg: Config) {
    && PowerOfTwo(cfg.riskShards) && PowerOfTwo(cfg.matchShards)
    && (forall i, j :: 0 <= i < j < |cfg.specs| ==> cfg.specs[i].market != cfg.specs[j].market)
    && (forall spec :: spec in cfg.specs ==> spec.makerFee <= 10000 && spec.takerFee <= 10000)
  }

  function MarketIndex(specs: seq<Spec>, market: nat): Option<nat> {
    if specs == [] then None
    else if specs[0].market == market then Some(0)
    else
      match MarketIndex(specs[1..], market)
      case None => None
      case Some(i) => Some(i + 1)
  }

  function Plus(m: map<nat, int>, asset: nat, amount: int): map<nat, int> {
    m[asset := At(m, asset) + amount]
  }

  function At(m: map<nat, int>, asset: nat): int {
    if asset in m then m[asset] else 0
  }

  function Initial(cfg: Config): State {
    State([], 0, seq(cfg.riskShards, _ => 0), seq(cfg.matchShards, _ => 0), seq(cfg.riskShards, _ => 0),
          seq(cfg.riskShards, _ => 0), seq(|cfg.specs|, _ => BookRuns.EMPTY_BOOK), map[], 0,
          map[], map[], multiset{}, multiset{})
  }

  // Lengths of the cursor arrays.
  predicate Laid(cfg: Config, s: State) {
    && |s.r1| == |s.r2| == |s.leg| == cfg.riskShards && |s.mt| == cfg.matchShards
    && |s.books| == |cfg.specs| && cfg.riskShards > 0 && cfg.matchShards > 0
  }

  // What a gateway sends: a fresh command, machine words, a positive size.
  predicate Incoming(c: Command) {
    && c.status == Processing && c.events == []
    && (c.kind == PlaceOrder ==> 0 < c.size && c.price <= U64_MAX)
  }

  // What the stage barriers ask of an action.
  ghost predicate Ready(cfg: Config, s: State, a: Action) {
    Laid(cfg, s) &&
    match a
    case Publish(c) => Incoming(c)
    case Journal(_, _) => s.journaled < |s.slots|
    case Admit(i, _) => i < cfg.riskShards && s.r1[i] < |s.slots|
    case Trade(j) =>
      && j < cfg.matchShards && s.mt[j] < s.journaled && s.mt[j] < |s.slots|
      && forall i :: 0 <= i < cfg.riskShards ==> s.mt[j] < s.r1[i]
    case Settle(i) =>
      && i < cfg.riskShards && s.r2[i] < |s.slots|
      && forall j :: 0 <= j < cfg.matchShards ==> s.r2[i] < s.mt[j]
  }

  // A new order or funds command is stamped with an id above all earlier ones.
  ghost predicate Enabled(cfg: Config, s: State, a: Action) {
    Ready(cfg, s, a) && (a.Journal? && s.slots[s.journaled].kind != CancelOrder ==> s.bound <= a.id)
  }

  // One cursor moves to the next command.
  function Bump(cursor: seq<nat>, i: nat): seq<nat>
    requires i < |cursor|
  {
    cursor[i := cursor[i] + 1]
  }

  // Deposits count once they are processed.
  function NetAfter(net: map<nat, int>, c: Command): map<nat, int> {
    if c.status != Processed then net
    else if c.kind == DepositFunds then Plus(net, FundsKey(c).asset, c.size)
    else if c.kind == WithdrawFunds then Plus(net, FundsKey(c).asset, 0 - c.size as int)
    else net
  }

  function ApplyAdmit(cfg: Config, s: State, i: nat, bestAsk: nat): State
    requires Laid(cfg, s) && i < cfg.riskShards && s.r1[i] < |s.slots|
  {
    var k := s.r1[i];
    var moved := s.(r1 := Bump(s.r1, i));
    if !Owns(cfg.riskShards, i, s.slots[k].userId) then moved
    else
      var (store, c) := PreProcess(s.store, cfg.specs, s.slots[k], bestAsk);
      moved.(store := store, slots := s.slots[k := c], net := NetAfter(s.net, c))
  }

  // The guard of a router: funds commands and rejected ones pass by.
  predicate ForBook(c: Command) {
    c.kind != DepositFunds && c.kind != WithdrawFunds && c.status != Rejected
  }

  function ApplyTrade(cfg: Config, s: State, j: nat): State
    requires Laid(cfg, s) && j < cfg.matchShards && s.mt[j] < |s.slots|
  {
    var k := s.mt[j];
    var c := s.slots[k];
    var moved := s.(mt := Bump(s.mt, j));
    if !ForBook(c) || !Owns(cfg.matchShards, j, c.marketId) then moved
    else
      match MarketIndex(cfg.specs, c.marketId)
      case None => moved.(slots := s.slots[k := c.(status := Rejected)])
      case Some(x) =>
        if x >= |s.books| then moved
        else
          var r := BookRuns.Process(s.books[x], c);
          moved.(slots := s.slots[k := r.cmd], books := s.books[x := r.book],
                 matched := s.matched + multiset{(k, j)})
  }

  // The terms of one leg under the market's specification.
  function LegTerms(spec: Spec, c: Command, leg: nat): Terms
    requires leg < LegCount(c)
  {
    TradeTerms(spec, LegUser(c, leg), c.marketId, if leg % 2 == 0 then c.side.Opposite() else c.side,
               c.events[leg / 2])
  }

  function FeesAfter(specs: seq<Spec>, fees: map<nat, int>, c: Command, leg: nat, result: Result): map<nat, int>
    requires leg < LegCount(c)
  {
    match FindSpec(specs, c.marketId)
    case None => fees
    case Some(spec) =>
      var t := LegTerms(spec, c, leg);
      if result.Ok? then Plus(fees, t.get.asset, t.gross - Net(t.gross, t.fee)) else fees
  }

  function ApplySettle(cfg: Config, s: State, i: nat): State
    requires Laid(cfg, s) && i < cfg.riskShards && s.r2[i] < |s.slots|
  {
    var k := s.r2[i];
    var c, l := s.slots[k], s.leg[i];
    var passed := s.(r2 := Bump(s.r2, i), leg := s.leg[i := 0]);
    if !Settleable(c) then passed
    else if l < LegCount(c) then
      var stepped := s.(leg := Bump(s.leg, i));
      if !Owns(cfg.riskShards, i, LegUser(c, l)) then stepped
      else
        var p := SettleLeg(s.store, cfg.specs, c, l);
        stepped.(store := p.store, fees := FeesAfter(cfg.specs, s.fees, c, l, p.result),
                 settled := s.settled + multiset{(k, l)})
    else if Owns(cfg.riskShards, i, c.userId) && ReleaseDue(c) then
      passed.(store := Release(s.store, cfg.specs, c).store, settled := s.settled + multiset{(k, l)})
    else passed
  }

  function ApplyJournal(s: State, id: nat, timestamp: nat): State
    requires s.journaled < |s.slots|
  {
    var c := s.slots[s.journaled];
    s.(slots := s.slots[s.journaled := Stamped(c, id, timestamp)], journaled := s.journaled + 1,
       bound := if c.kind == CancelOrder then s.bound else id + 1)
  }

  ghost function Apply(cfg: Config, s: State, a: Action): State
    requires Ready(cfg, s, a)
  {
    match a
    case Publish(c) => s.(slots := s.slots + [c])
    case Journal(id, timestamp) => ApplyJournal(s, id, timestamp)
    case Admit(i, bestAsk) => ApplyAdmit(cfg, s, i, bestAsk)
    case Trade(j) => ApplyTrade(cfg, s, j)
    case Settle(i) => ApplySettle(cfg, s, i)
  }

  // --- Hypotheses on amounts ----------------------------------------------------------

  // The price at which the first stage reserves for an order, if it comes so far.
  function ReservedAt(specs: seq<Spec>, c: Command, bestAsk: nat): Option<nat> {
    match FindSpec(specs, c.marketId)
    case None => None
    case Some(spec) => if c.side == Bid then ReservePrice(spec, c.price, bestAsk) else Some(c.price)
  }

  // A reservation fits the 64-bit quote arithmetic.
  predicate ReservationFits(cfg: Config, c: Command, bestAsk: nat) {
    c.kind == PlaceOrder && c.side == Bid ==>
      match FindSpec(cfg.specs, c.marketId)
      case None => true
      case Some(spec) =>
        match ReservedAt(cfg.specs, c, bestAsk)
        case None => true
        case Some(price) => Fits(spec, price, c.size)
  }

  predicate LockFits(b: Balance, amount: nat) {
    b.available >= amount ==> b.locked + amount <= U64_MAX
  }

  // A lock does not wrap the locked funds of its balance.
  predicate ReservationLocks(specs: seq<Spec>, store: Store, c: Command, bestAsk: nat) {
    c.kind == PlaceOrder ==>
      match FindSpec(specs, c.marketId)
      case None => true
      case Some(spec) =>
        match ReservedAt(specs, c, bestAsk)
        case None => true
        case Some(price) =>
          LockFits(Get(store, Key(c.userId, HeldAsset(c.marketId, c.side))), Held(spec, c.side, price, c.size))
  }

  // Net deposits of every asset fit a machine word.
  ghost predicate NetFits(s: State) {
    forall asset :: At(s.net, asset) <= U64_MAX
  }

  // The hypotheses on amounts: a reservation is computed and locked without
  // wrapping, and net deposits stay within a machine word.
  ghost predicate SupplyFits(cfg: Config, s: State, a: Action)
    requires Ready(cfg, s, a)
  {
    && NetFits(Apply(cfg, s, a))
    && (a.Admit? ==>
          var c := s.slots[s.r1[a.shard]];
          Owns(cfg.riskShards, a.shard, c.userId) ==>
            ReservationFits(cfg, c, a.bestAsk) && ReservationLocks(cfg.specs, s.store, c, a.bestAsk))
  }

  // --- Runs ---------------------------------------------------------------------------

  ghost predicate Possible(cfg: Config, s: State, actions: seq<Action>)
    decreases |actions|
  {
    actions == []
    || (Enabled(cfg, s, actions[0]) && SupplyFits(cfg, s, actions[0])
        && Possible(cfg, Apply(cfg, s, actions[0]), actions[1..]))
  }

  ghost function After(cfg: Config, s: State, actions: seq<Action>): State
    requires Possible(cfg, s, actions)
    decreases |actions|
  {
    if actions == [] then s else After(cfg, Apply(cfg, s, actions[0]), actions[1..])
  }
}
