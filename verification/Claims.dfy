// Outstanding claims on locked funds: what a command waiting for the books, a
// resting order, or a part of a settlement not yet booked will still take out of
// one locked balance.
module Claims {
  import opened Orders
  import PriceTime
  import opened QuoteMath
  import opened AssetTotals
  import opened Ledger
  import opened Sums
  import opened Pipeline
  import PipelineShape

  // --- Parts of a settlement ------------------------------------------------------------

  // A matched command settles in parts: its legs in order, and then its release.
  function Parts(c: Command): nat { LegCount(c) + 1 }

  function PartUser(c: Command, part: nat): nat {
    if part < LegCount(c) then LegUser(c, part) else c.userId
  }

  // What one leg takes out of the locked funds of its user: a buying taker's
  // refund, and the amount given.
  function LegDebit(spec: Spec, c: Command, leg: nat): nat
    requires leg < LegCount(c)
  {
    LegRefund(spec, c, leg) + LegTerms(spec, c, leg).giveAmount
  }

  function LegRefund(spec: Spec, c: Command, leg: nat): nat
    requires leg < LegCount(c)
  {
    if leg % 2 == 0 then 0 else Refund(spec, c.userId, c.side, c.events[leg / 2], Some(c.price))
  }

  function HeldKey(c: Command): Key { Key(c.userId, HeldAsset(c.marketId, c.side)) }

  function PartKey(spec: Spec, c: Command, part: nat): Key {
    if part < LegCount(c) then LegTerms(spec, c, part).give else HeldKey(c)
  }

  function PartDebit(spec: Spec, c: Command, part: nat): nat {
    if part < LegCount(c) then LegDebit(spec, c, part)
    else if ReleaseDue(c) then Held(spec, c.side, c.price, c.size)
    else 0
  }

  function PartClaim(specs: seq<Spec>, c: Command, part: nat, scope: Scope): nat {
    match FindSpec(specs, c.marketId)
    case None => 0
    case Some(spec) => if In(scope, PartKey(spec, c, part)) then PartDebit(spec, c, part) else 0
  }

  // The shard that owns the user of a part has not passed it yet.
  predicate PartOpen(cfg: Config, s: State, k: nat, part: nat)
    requires Laid(cfg, s) && k < |s.slots|
  {
    var i := PartUser(s.slots[k], part) % cfg.riskShards;
    s.r2[i] < k || (s.r2[i] == k && s.leg[i] <= part)
  }

  // --- Claims ---------------------------------------------------------------------------

  function OpenClaims(cfg: Config, s: State, k: nat, scope: Scope): nat -> int
    requires Laid(cfg, s) && k < |s.slots|
  {
    (part: nat) => if PartOpen(cfg, s, k, part) then PartClaim(cfg.specs, s.slots[k], part, scope) else 0
  }

  function AllClaims(specs: seq<Spec>, c: Command, scope: Scope): nat -> int {
    (part: nat) => PartClaim(specs, c, part, scope)
  }

  // An accepted order that no book has seen.
  function WaitingClaim(specs: seq<Spec>, c: Command, scope: Scope): nat {
    match FindSpec(specs, c.marketId)
    case None => 0
    case Some(spec) =>
      if c.kind == PlaceOrder && c.status != Rejected && In(scope, HeldKey(c))
      then Held(spec, c.side, c.price, c.size) else 0
  }

  function SlotClaim(cfg: Config, s: State, k: nat, scope: Scope): int
    requires Laid(cfg, s)
  {
    if k >= |s.slots| then 0
    else if PipelineShape.Matched(cfg, s, k) then
      if Settleable(s.slots[k]) then SumTo(OpenClaims(cfg, s, k, scope), Parts(s.slots[k])) else 0
    else if PipelineShape.Admitted(cfg, s, k) then WaitingClaim(cfg.specs, s.slots[k], scope)
    else 0
  }

  function SlotClaims(cfg: Config, s: State, scope: Scope): nat -> int
    requires Laid(cfg, s)
  {
    (k: nat) => SlotClaim(cfg, s, k, scope)
  }

  function OrderClaim(spec: Spec, o: Order, scope: Scope): nat {
    if In(scope, Key(o.user, HeldAsset(spec.market, o.side))) then Held(spec, o.side, o.price, o.size) else 0
  }

  function ListClaim(spec: Spec, orders: seq<Order>, scope: Scope): nat {
    if orders == [] then 0 else OrderClaim(spec, orders[0], scope) + ListClaim(spec, orders[1..], scope)
  }

  function BookClaim(spec: Spec, b: PriceTime.Book, scope: Scope): nat {
    ListClaim(spec, b.bids, scope) + ListClaim(spec, b.asks, scope)
  }

  function BookClaims(cfg: Config, s: State, scope: Scope): nat -> int {
    (x: nat) => if x < |s.books| && x < |cfg.specs| then BookClaim(cfg.specs[x], s.books[x], scope) else 0
  }

  function Outstanding(cfg: Config, s: State, scope: Scope): int
    requires Laid(cfg, s)
  {
    SumTo(SlotClaims(cfg, s, scope), |s.slots|) + SumTo(BookClaims(cfg, s, scope), |s.books|)
  }

  // Every claim is backed by locked funds: those of each balance, and those of
  // each asset in all.
  ghost predicate Covered(cfg: Config, s: State)
    requires Laid(cfg, s)
  {
    forall scope :: CoveredIn(cfg, s, scope)
  }

  ghost predicate CoveredIn(cfg: Config, s: State, scope: Scope)
    requires Laid(cfg, s)
  {
    LockedIn(s.store, scope) >= Outstanding(cfg, s, scope)
  }

  // --- Signs ------------------------------------------------------------------------------

  lemma SlotClaimSign(cfg: Config, s: State, k: nat, scope: Scope)
    requires Laid(cfg, s)
    ensures SlotClaim(cfg, s, k, scope) >= 0
  {
    if k < |s.slots| {
      SumNonNegative(OpenClaims(cfg, s, k, scope), Parts(s.slots[k]));
    }
  }

  // No single open part claims more than everything outstanding.
  lemma OutstandingAtLeast(cfg: Config, s: State, k: nat, part: nat, scope: Scope)
    requires Laid(cfg, s) && k < |s.slots| && part < Parts(s.slots[k])
    requires PipelineShape.Matched(cfg, s, k) && Settleable(s.slots[k]) && PartOpen(cfg, s, k, part)
    ensures Outstanding(cfg, s, scope) >= PartClaim(cfg.specs, s.slots[k], part, scope)
  {
    forall l: nat
      ensures SlotClaims(cfg, s, scope)(l) >= 0
    {
      SlotClaimSign(cfg, s, l, scope);
    }
    SumAtLeast(OpenClaims(cfg, s, k, scope), Parts(s.slots[k]), part);
    SumAtLeast(SlotClaims(cfg, s, scope), |s.slots|, k);
    SumNonNegative(BookClaims(cfg, s, scope), |s.books|);
  }

  // --- The store under each operation ---------------------------------------------------------

  // A balance after a leg that succeeds: the debit leaves the locked funds of the
  // giver, the refund stays with the giver, and the net credit arrives.
  predicate BookedAt(spec: Spec, c: Command, leg: nat, before: Store, after: Store, key: Key)
    requires leg < LegCount(c)
  {
    var t := LegTerms(spec, c, leg);
    Shifted(Get(before, key), Get(after, key),
            if key == t.give then 0 - LegDebit(spec, c, leg) as int else 0,
            (if key == t.get then Net(t.gross, t.fee) else 0) - (if key == t.give then t.giveAmount else 0))
  }

  ghost predicate LegBooked(spec: Spec, c: Command, leg: nat, before: Store, after: Store)
    requires leg < LegCount(c)
  {
    forall key :: BookedAt(spec, c, leg, before, after, key)
  }

  // The debit is locked, and neither the refund nor the credit overflows what is
  // available.
  predicate CanBook(s: Store, t: Terms, refund: nat) {
    && Get(s, t.give).locked >= refund + t.giveAmount
    && Get(s, t.give).available + refund <= U64_MAX
    && Get(s, t.get).available + (if t.get == t.give then refund else 0) + Net(t.gross, t.fee) <= U64_MAX
  }

  // A leg whose debit is locked and whose credit has room is booked.
  lemma LegSucceeds(s: Store, specs: seq<Spec>, spec: Spec, c: Command, leg: nat)
    requires leg < LegCount(c) && FindSpec(specs, c.marketId) == Some(spec)
    requires CanBook(s, LegTerms(spec, c, leg), LegRefund(spec, c, leg))
    ensures var p := SettleLeg(s, specs, c, leg);
            p.result == Ok && LegBooked(spec, c, leg, s, p.store)
  {
    var e, t := c.events[leg / 2], LegTerms(spec, c, leg);
    var side := if leg % 2 == 0 then c.side.Opposite() else c.side;
    var limit := if leg % 2 == 0 then None else Some(c.price);
    assert SettleLeg(s, specs, c, leg) == SettleTrade(s, spec, LegUser(c, leg), c.marketId, side, e, limit);
    var after := SettleLeg(s, specs, c, leg).store;
    forall key
      ensures BookedAt(spec, c, leg, s, after, key)
    {
      TradeSucceeds(s, spec, LegUser(c, leg), c.marketId, side, e, limit, key);
    }
    TradeSucceeds(s, spec, LegUser(c, leg), c.marketId, side, e, limit, t.give);
  }

  // Within a machine word, an unlock moves its amount and nothing else.
  lemma UnlockMoves(s: Store, k: Key, amount: nat)
    requires Get(s, k).locked >= amount && Get(s, k).available + amount <= U64_MAX
    ensures var b := Get(s, k);
            UnlockFunds(s, k, amount) == Posting(s[k := Balance(b.available + amount, b.locked - amount)], Ok)
  {
  }

  lemma LockMoves(s: Store, k: Key, amount: nat)
    requires Get(s, k).available >= amount && Get(s, k).locked + amount <= U64_MAX
    ensures var b := Get(s, k);
            LockFunds(s, k, amount) == Posting(s[k := Balance(b.available - amount, b.locked + amount)], Ok)
  {
  }

  lemma GetUpdated(s: Store, k: Key, b: Balance, key: Key)
    ensures Get(s[k := b], key) == if key == k then b else Get(s, key)
  {
  }

  // Paying from locked funds and collecting the net amount.
  lemma PayAndCollect(s: Store, t: Terms, key: Key)
    requires CanBook(s, t, 0)
    ensures var paid := SubtractLockedFunds(s, t.give, t.giveAmount);
            var p := AddFunds(paid.store, t.get, Net(t.gross, t.fee));
            && paid.result == Ok && p.result == Ok
            && Shifted(Get(s, key), Get(p.store, key),
                       if key == t.give then 0 - t.giveAmount as int else 0,
                       (if key == t.get then Net(t.gross, t.fee) else 0) - (if key == t.give then t.giveAmount else 0))
  {
    var b := Get(s, t.give);
    var paid := s[t.give := Balance(b.available, b.locked - t.giveAmount)];
    assert SubtractLockedFunds(s, t.give, t.giveAmount) == Posting(paid, Ok);
    GetUpdated(s, t.give, paid[t.give], t.get);
    GetUpdated(s, t.give, paid[t.give], key);
    var g, net := Get(paid, t.get), Net(t.gross, t.fee);
    var credited := Balance(g.available + net, g.locked);
    assert AddFunds(paid, t.get, net) == Posting(paid[t.get := credited], Ok);
    GetUpdated(paid, t.get, credited, key);
  }

  lemma TradeSucceeds(s: Store, spec: Spec, user: nat, market: nat, side: Side, e: TradeEvent, limit: Option<nat>,
                      key: Key)
    requires CanBook(s, TradeTerms(spec, user, market, side, e), Refund(spec, user, side, e, limit))
    ensures var t, refund := TradeTerms(spec, user, market, side, e), Refund(spec, user, side, e, limit);
            var p := SettleTrade(s, spec, user, market, side, e, limit);
            && p.result == Ok
            && Shifted(Get(s, key), Get(p.store, key),
                       if key == t.give then 0 - (refund + t.giveAmount) as int else 0,
                       (if key == t.get then Net(t.gross, t.fee) else 0) - (if key == t.give then t.giveAmount else 0))
  {
    var t, refund := TradeTerms(spec, user, market, side, e), Refund(spec, user, side, e, limit);
    if HasRefund(user, side, e, limit) {
      assert t.give == Key(user, QuoteAsset(market));
      UnlockMoves(s, t.give, refund);
      var b := Get(s, t.give);
      var freed := Balance(b.available + refund, b.locked - refund);
      GetUpdated(s, t.give, freed, t.give);
      GetUpdated(s, t.give, freed, t.get);
      GetUpdated(s, t.give, freed, key);
      PayAndCollect(s[t.give := freed], t, key);
    } else {
      PayAndCollect(s, t, key);
    }
  }

  // A release of locked funds frees them and changes no total.
  lemma ReleaseSucceeds(s: Store, specs: seq<Spec>, spec: Spec, c: Command, key: Key)
    requires FindSpec(specs, c.marketId) == Some(spec)
    requires Get(s, HeldKey(c)).locked >= Held(spec, c.side, c.price, c.size)
    requires Get(s, HeldKey(c)).available + Held(spec, c.side, c.price, c.size) <= U64_MAX
    ensures var p := Release(s, specs, c);
            && p.result == Ok
            && Shifted(Get(s, key), Get(p.store, key),
                       if key == HeldKey(c) then 0 - Held(spec, c.side, c.price, c.size) as int else 0, 0)
  {
    var b, amount := Get(s, HeldKey(c)), Held(spec, c.side, c.price, c.size);
    UnlockMoves(s, HeldKey(c), amount);
    GetUpdated(s, HeldKey(c), Balance(b.available + amount, b.locked - amount), key);
  }

  // The first stage locks exactly what the accepted command will claim, and only
  // an accepted deposit or withdrawal changes a total.
  predicate AdmittedAt(specs: seq<Spec>, before: Store, after: Store, c: Command, key: Key) {
    Shifted(Get(before, key), Get(after, key), WaitingClaim(specs, c, One(key)), FundsIn(c, key))
  }

  // What a processed funds command adds to a balance.
  function FundsIn(c: Command, key: Key): int {
    if c.status != Processed || key != FundsKey(c) then 0
    else if c.kind == DepositFunds then c.size
    else if c.kind == WithdrawFunds then 0 - c.size as int
    else 0
  }

  lemma PreProcessLocks(s: Store, specs: seq<Spec>, c: Command, bestAsk: nat, key: Key)
    requires ReservationLocks(specs, s, c, bestAsk) && c.status == Processing
    ensures var (t, d) := PreProcess(s, specs, c, bestAsk);
            AdmittedAt(specs, s, t, d, key)
  {
    var (t, d) := PreProcess(s, specs, c, bestAsk);
    match c.kind {
      case PlaceOrder => ReserveLocks(s, specs, c, bestAsk, key);
      case CancelOrder =>
      case DepositFunds =>
        var b := Get(s, FundsKey(c));
        GetUpdated(s, FundsKey(c), Balance(b.available + c.size, b.locked), key);
      case WithdrawFunds =>
        var b := Get(s, FundsKey(c));
        if b.available >= c.size {
          GetUpdated(s, FundsKey(c), Balance(b.available - c.size, b.locked), key);
        }
    }
  }

  // Locking an amount that fits.
  lemma LocksAt(s: Store, k: Key, amount: nat, key: Key)
    requires LockFits(Get(s, k), amount)
    ensures var p := LockFunds(s, k, amount);
            && (p.result == Ok <==> Get(s, k).available >= amount)
            && Shifted(Get(s, key), Get(p.store, key), if key == k && p.result == Ok then amount else 0, 0)
  {
    var b := Get(s, k);
    if b.available >= amount {
      LockMoves(s, k, amount);
      GetUpdated(s, k, Balance(b.available - amount, b.locked + amount), key);
    } else {
      GetUpdated(s, k, b, key);
    }
  }

  lemma ReserveLocks(s: Store, specs: seq<Spec>, c: Command, bestAsk: nat, key: Key)
    requires ReservationLocks(specs, s, c, bestAsk) && c.status == Processing && c.kind == PlaceOrder
    ensures var (t, d) := PreProcess(s, specs, c, bestAsk);
            AdmittedAt(specs, s, t, d, key)
  {
    match FindSpec(specs, c.marketId) {
      case None =>
      case Some(spec) =>
        match ReservedAt(specs, c, bestAsk) {
          case None =>
          case Some(price) => LocksAt(s, HeldKey(c), Held(spec, c.side, price, c.size), key);
        }
    }
  }
}
