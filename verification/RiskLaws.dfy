// The risk decisions in plain numbers: at what price an order is reserved and what
// that locks, when it is refused, what deposits and withdrawals move, and what the
// two users of a trade exchange.
module RiskLaws {
  import opened Orders
  import opened QuoteMath
  import opened Ledger
  import Arithmetic

  // --- Reservation ----------------------------------------------------------------------

  // p is ask padded by so many basis points, rounded down.
  predicate Padded(p: nat, ask: nat, slippage: nat) {
    p * 10000 <= ask * (10000 + slippage) < (p + 1) * 10000
  }

  lemma PaddedUnique(p: nat, q: nat, ask: nat, slippage: nat)
    requires Padded(p, ask, slippage) && Padded(q, ask, slippage)
    ensures p == q
  {
  }

  lemma PaddingIs(ask: nat, slippage: nat)
    ensures Padded(ask + ask * slippage / 10000, ask, slippage)
  {
    var n := ask * slippage;
    assert ask * (10000 + slippage) == ask * 10000 + n;
  }

  // The adjustment itself fits a word.
  predicate AdjustmentFits(ask: nat, slippage: nat) {
    ask * slippage / 10000 < 0x1_0000_0000_0000_0000
  }

  lemma MarketPrice(spec: Spec, ask: nat, p: nat)
    requires AdjustmentFits(ask, spec.slippage) && Padded(p, ask, spec.slippage)
    ensures ReservePrice(spec, 0xFFFF_FFFF_FFFF_FFFF, ask)
         == if ask == 0xFFFF_FFFF_FFFF_FFFF || p > 0xFFFF_FFFF_FFFF_FFFF then None else Some(p)
  {
    PaddingIs(ask, spec.slippage);
    PaddedUnique(p, ask + ask * spec.slippage / 10000, ask, spec.slippage);
    WordKept(ask * spec.slippage / 10000);
  }

  lemma WordKept(x: nat)
    requires x < 0x1_0000_0000_0000_0000
    ensures Wrap64(x) == x
  {
  }

  // In every case: the adjustment r is the basis points of the ask, rounded down and
  // cut to 64 bits, and a sum that leaves the word is refused.
  lemma MarketPriceCut(spec: Spec, ask: nat) returns (r: nat, m: nat)
    requires ask != 0xFFFF_FFFF_FFFF_FFFF
    ensures r < 0x1_0000_0000_0000_0000
    ensures (r + m * 0x1_0000_0000_0000_0000) * 10000 <= ask * spec.slippage
    ensures ask * spec.slippage < (r + m * 0x1_0000_0000_0000_0000 + 1) * 10000
    ensures ReservePrice(spec, 0xFFFF_FFFF_FFFF_FFFF, ask)
         == if ask + r < 0x1_0000_0000_0000_0000 then Some(ask + r) else None
  {
    var adjustment := ask * spec.slippage / 10000;
    r, m := adjustment % 0x1_0000_0000_0000_0000, adjustment / 0x1_0000_0000_0000_0000;
    assert Wrap64(adjustment) == r;
  }

  // The balance an order of a side draws on.
  function HeldBalance(c: Command): Key {
    Key(c.userId, if c.side == Bid then (c.marketId / 0x1_0000) % 0x1_0000 else c.marketId % 0x1_0000)
  }

  // What an order needs at a price.
  function Need(spec: Spec, c: Command, price: nat): nat {
    if c.side == Bid then QuoteCost(spec, price, c.size) else c.size
  }

  // `amount` of one balance moved from available to locked, and nothing else moved.
  ghost predicate TurnsLocked(before: Store, after: Store, key: Key, amount: nat) {
    && Get(before, key).available == Get(after, key).available + amount
    && (Get(before, key).locked + amount < 0x1_0000_0000_0000_0000 ==>
          Get(after, key).locked == Get(before, key).locked + amount)
    && forall k :: k != key ==> Get(after, k) == Get(before, k)
  }

  ghost predicate SameBalances(before: Store, after: Store) {
    forall k :: Get(after, k) == Get(before, k)
  }

  // A market buy is reserved at the cached best ask plus slippage. It is refused if
  // and only if the market is unknown, there is no ask, the padded price leaves the
  // machine word, or the user has less available than the cost at that price.
  lemma MarketBuy(s: Store, specs: seq<Spec>, spec: Spec, c: Command, ask: nat, p: nat)
    requires c.kind == PlaceOrder && c.side == Bid && c.price == 0xFFFF_FFFF_FFFF_FFFF && c.status != Rejected
    requires FindSpec(specs, c.marketId) == Some(spec)
    requires AdjustmentFits(ask, spec.slippage) && Padded(p, ask, spec.slippage)
    ensures var (t, d) := PreProcess(s, specs, c, ask);
            if ask != 0xFFFF_FFFF_FFFF_FFFF && p <= 0xFFFF_FFFF_FFFF_FFFF
               && Get(s, HeldBalance(c)).available >= Need(spec, c, p) then
              d == c.(price := p) && TurnsLocked(s, t, HeldBalance(c), Need(spec, c, p))
            else
              d.status == Rejected && SameBalances(s, t)
  {
    MarketPrice(spec, ask, p);
  }

  // Any other order is reserved at the price it came with.
  lemma LimitOrSell(s: Store, specs: seq<Spec>, spec: Spec, c: Command, ask: nat)
    requires c.kind == PlaceOrder && (c.side == Ask || c.price != 0xFFFF_FFFF_FFFF_FFFF) && c.status != Rejected
    requires FindSpec(specs, c.marketId) == Some(spec)
    ensures var (t, d) := PreProcess(s, specs, c, ask);
            if Get(s, HeldBalance(c)).available >= Need(spec, c, c.price) then
              d == c && TurnsLocked(s, t, HeldBalance(c), Need(spec, c, c.price))
            else
              d == c.(status := Rejected) && SameBalances(s, t)
  {
  }

  lemma UnknownMarket(s: Store, specs: seq<Spec>, c: Command, ask: nat)
    requires c.kind == PlaceOrder && forall spec :: spec in specs ==> spec.market != c.marketId
    ensures PreProcess(s, specs, c, ask) == (s, c.(status := Rejected))
  {
    NoSpec(specs, c.marketId);
  }

  lemma {:induction false} NoSpec(specs: seq<Spec>, market: nat)
    requires forall spec :: spec in specs ==> spec.market != market
    ensures FindSpec(specs, market) == None
  {
    if specs != [] {
      NoSpec(specs[1..], market);
    }
  }

  // --- Deposits and withdrawals ---------------------------------------------------------

  // Available funds of one balance moved by an amount, and nothing else moved.
  ghost predicate Moved(before: Store, after: Store, key: Key, amount: int) {
    && Get(after, key).available == Get(before, key).available + amount
    && Get(after, key).locked == Get(before, key).locked
    && forall k :: k != key ==> Get(after, k) == Get(before, k)
  }

  // The asset of a funds command is the lower half of its market field.
  function Account(c: Command): Key { Key(c.userId, c.marketId % 0x1_0000) }

  lemma Deposits(s: Store, specs: seq<Spec>, c: Command, ask: nat)
    requires c.kind == DepositFunds
    ensures var (t, d) := PreProcess(s, specs, c, ask);
            if Get(s, Account(c)).available + c.size < 0x1_0000_0000_0000_0000 then
              d == c.(status := Processed) && Moved(s, t, Account(c), c.size)
            else
              d == c.(status := Rejected) && SameBalances(s, t)
  {
  }

  lemma Withdrawals(s: Store, specs: seq<Spec>, c: Command, ask: nat)
    requires c.kind == WithdrawFunds
    ensures var (t, d) := PreProcess(s, specs, c, ask);
            if c.size <= Get(s, Account(c)).available then
              d == c.(status := Processed) && Moved(s, t, Account(c), 0 - c.size as int)
            else
              d == c.(status := Rejected) && SameBalances(s, t)
  {
  }

  // The first stage leaves a cancel alone.
  lemma Cancels(s: Store, specs: seq<Spec>, c: Command, ask: nat)
    requires c.kind == CancelOrder
    ensures PreProcess(s, specs, c, ask) == (s, c)
  {
  }

  // --- Settlement -----------------------------------------------------------------------

  function QuoteOf(user: nat, market: nat): Key { Key(user, (market / 0x1_0000) % 0x1_0000) }

  function BaseOf(user: nat, market: nat): Key { Key(user, market % 0x1_0000) }

  // Makers and takers pay their own rate, in basis points of what they receive.
  function Rate(spec: Spec, user: nat, e: TradeEvent): nat {
    if user == e.makerUser then spec.makerFee else spec.takerFee
  }

  // What a buying taker gets back for a trade below its limit.
  function PriceImprovement(spec: Spec, user: nat, e: TradeEvent, limit: Option<nat>): nat {
    match limit
    case None => 0
    case Some(price) =>
      if user != e.makerUser && e.price < price then QuoteCost(spec, price - e.price, e.size) else 0
  }

  predicate Holds(s: Store, key: Key, available: int, locked: int) {
    Get(s, key).available == available && Get(s, key).locked == locked
  }

  // A buyer pays the cost out of locked quote, gets any price improvement back as
  // available quote, and receives the size less the fee as available base.
  lemma BuyerSettles(s: Store, spec: Spec, user: nat, market: nat, e: TradeEvent, limit: Option<nat>)
    requires Rate(spec, user, e) <= 10000 && e.size * Rate(spec, user, e) < 0x1_0000_0000_0000_0000
    requires BaseOf(user, market) != QuoteOf(user, market)
    requires var q, b := Get(s, QuoteOf(user, market)), Get(s, BaseOf(user, market));
             var back := PriceImprovement(spec, user, e, limit);
             && q.locked >= back + QuoteCost(spec, e.price, e.size)
             && q.available + back < 0x1_0000_0000_0000_0000 && b.available + e.size < 0x1_0000_0000_0000_0000
    ensures var p := SettleTrade(s, spec, user, market, Bid, e, limit);
            var q, b := Get(s, QuoteOf(user, market)), Get(s, BaseOf(user, market));
            var back := PriceImprovement(spec, user, e, limit);
            && p.result == Ok
            && Holds(p.store, QuoteOf(user, market), q.available + back,
                     q.locked - back - QuoteCost(spec, e.price, e.size))
            && Holds(p.store, BaseOf(user, market), b.available + e.size - e.size * Rate(spec, user, e) / 10000,
                     b.locked)
            && forall k :: k != QuoteOf(user, market) && k != BaseOf(user, market) ==> Get(p.store, k) == Get(s, k)
  {
    var quote, base := QuoteOf(user, market), BaseOf(user, market);
    var q, back := Get(s, quote), PriceImprovement(spec, user, e, limit);
    FeeOf(e.size, Rate(spec, user, e));
    if HasRefund(user, Bid, e, limit) {
      Frees(s, quote, back);
      PaysAndReceives(s[quote := Balance(q.available + back, q.locked - back)], quote,
                      QuoteCost(spec, e.price, e.size), base, Net(e.size, FeeOn(e.size, Rate(spec, user, e))));
    } else {
      PaysAndReceives(s, quote, QuoteCost(spec, e.price, e.size), base,
                      Net(e.size, FeeOn(e.size, Rate(spec, user, e))));
    }
  }

  // A seller gives the size out of locked base and receives the cost less the fee as
  // available quote.
  lemma SellerSettles(s: Store, spec: Spec, user: nat, market: nat, e: TradeEvent, limit: Option<nat>)
    requires Rate(spec, user, e) <= 10000
    requires QuoteCost(spec, e.price, e.size) * Rate(spec, user, e) < 0x1_0000_0000_0000_0000
    requires BaseOf(user, market) != QuoteOf(user, market)
    requires var q, b := Get(s, QuoteOf(user, market)), Get(s, BaseOf(user, market));
             && b.locked >= e.size
             && q.available + QuoteCost(spec, e.price, e.size) < 0x1_0000_0000_0000_0000
    ensures var p := SettleTrade(s, spec, user, market, Ask, e, limit);
            var q, b := Get(s, QuoteOf(user, market)), Get(s, BaseOf(user, market));
            var cost := QuoteCost(spec, e.price, e.size);
            && p.result == Ok
            && Holds(p.store, BaseOf(user, market), b.available, b.locked - e.size)
            && Holds(p.store, QuoteOf(user, market), q.available + cost - cost * Rate(spec, user, e) / 10000, q.locked)
            && forall k :: k != QuoteOf(user, market) && k != BaseOf(user, market) ==> Get(p.store, k) == Get(s, k)
  {
    var cost := QuoteCost(spec, e.price, e.size);
    FeeOf(cost, Rate(spec, user, e));
    PaysAndReceives(s, BaseOf(user, market), e.size, QuoteOf(user, market),
                    Net(cost, FeeOn(cost, Rate(spec, user, e))));
  }

  lemma FeeOf(amount: nat, rate: nat)
    requires rate <= 10000 && amount * rate < 0x1_0000_0000_0000_0000
    ensures 0 <= amount * rate / 10000 <= amount
    ensures Net(amount, FeeOn(amount, rate)) == amount - amount * rate / 10000
  {
    Arithmetic.MulMono(rate, 10000, amount);
    WordKept(amount * rate);
  }

  // A fee in every case: the product is cut to 64 bits, and the credit wraps where a
  // rate above 10000 makes the fee exceed the amount.
  lemma FeeCuts(amount: nat, rate: nat) returns (k: nat)
    ensures var kept := amount * rate - k * 0x1_0000_0000_0000_0000;
            && 0 <= kept < 0x1_0000_0000_0000_0000
            && FeeOn(amount, rate) * 10000 <= kept < (FeeOn(amount, rate) + 1) * 10000
  {
    k := amount * rate / 0x1_0000_0000_0000_0000;
    assert Wrap64(amount * rate) == amount * rate - k * 0x1_0000_0000_0000_0000;
  }

  lemma CreditCuts(amount: nat, fee: nat)
    requires amount < 0x1_0000_0000_0000_0000 && fee < 0x1_0000_0000_0000_0000
    ensures Net(amount, fee) == if fee <= amount then amount - fee else amount - fee + 0x1_0000_0000_0000_0000
  {
  }

  // Locking and unlocking are not checked for overflow: the sum wraps.
  lemma SumsWrap(s: Store, k: Key, amount: nat)
    requires amount < 0x1_0000_0000_0000_0000
    requires Get(s, k).locked < 0x1_0000_0000_0000_0000 && Get(s, k).available < 0x1_0000_0000_0000_0000
    ensures Get(s, k).available >= amount && Get(s, k).locked + amount >= 0x1_0000_0000_0000_0000 ==>
              Holds(LockFunds(s, k, amount).store, k, Get(s, k).available - amount,
                    Get(s, k).locked + amount - 0x1_0000_0000_0000_0000)
    ensures Get(s, k).locked >= amount && Get(s, k).available + amount >= 0x1_0000_0000_0000_0000 ==>
              Holds(UnlockFunds(s, k, amount).store, k, Get(s, k).available + amount - 0x1_0000_0000_0000_0000,
                    Get(s, k).locked - amount)
  {
  }

  // A settlement stops at the first posting that is refused. A trade whose cost is
  // not locked credits nothing; what was refunded before stays refunded.
  lemma BuyerStops(s: Store, spec: Spec, user: nat, market: nat, e: TradeEvent, limit: Option<nat>)
    requires var q, back := Get(s, QuoteOf(user, market)), PriceImprovement(spec, user, e, limit);
             q.available + back < 0x1_0000_0000_0000_0000 && q.locked < back + QuoteCost(spec, e.price, e.size)
    ensures var p := SettleTrade(s, spec, user, market, Bid, e, limit);
            var q, back := Get(s, QuoteOf(user, market)), PriceImprovement(spec, user, e, limit);
            && p.result.Err? && p.result.error.InsufficientLockedFunds?
            && (if q.locked < back then SameBalances(s, p.store)
                else
                  && Holds(p.store, QuoteOf(user, market), q.available + back, q.locked - back)
                  && forall k :: k != QuoteOf(user, market) ==> Get(p.store, k) == Get(s, k))
  {
    var quote, back := QuoteOf(user, market), PriceImprovement(spec, user, e, limit);
    if HasRefund(user, Bid, e, limit) && Get(s, quote).locked >= back {
      Frees(s, quote, back);
    }
  }

  lemma SellerStops(s: Store, spec: Spec, user: nat, market: nat, e: TradeEvent, limit: Option<nat>)
    requires Get(s, BaseOf(user, market)).locked < e.size
    ensures var p := SettleTrade(s, spec, user, market, Ask, e, limit);
            && p.result == Err(InsufficientLockedFunds(Get(s, BaseOf(user, market)).locked, e.size))
            && SameBalances(s, p.store)
  {
  }

  // Where the credit does not fit, the payment stays taken and nothing is credited.
  lemma SellerOverflows(s: Store, spec: Spec, user: nat, market: nat, e: TradeEvent, limit: Option<nat>)
    requires BaseOf(user, market) != QuoteOf(user, market) && Get(s, BaseOf(user, market)).locked >= e.size
    requires Rate(spec, user, e) <= 10000
    requires var cost := QuoteCost(spec, e.price, e.size);
             && cost * Rate(spec, user, e) < 0x1_0000_0000_0000_0000
             && Get(s, QuoteOf(user, market)).available + (cost - cost * Rate(spec, user, e) / 10000)
                >= 0x1_0000_0000_0000_0000
    ensures var p, b := SettleTrade(s, spec, user, market, Ask, e, limit), Get(s, BaseOf(user, market));
            && p.result == Err(Overflow)
            && Holds(p.store, BaseOf(user, market), b.available, b.locked - e.size)
            && forall k :: k != BaseOf(user, market) ==> Get(p.store, k) == Get(s, k)
  {
    FeeOf(QuoteCost(spec, e.price, e.size), Rate(spec, user, e));
  }

  lemma BuyerOverflows(s: Store, spec: Spec, user: nat, market: nat, e: TradeEvent)
    requires BaseOf(user, market) != QuoteOf(user, market)
    requires Get(s, QuoteOf(user, market)).locked >= QuoteCost(spec, e.price, e.size)
    requires Rate(spec, user, e) <= 10000 && e.size * Rate(spec, user, e) < 0x1_0000_0000_0000_0000
    requires Get(s, BaseOf(user, market)).available + (e.size - e.size * Rate(spec, user, e) / 10000)
             >= 0x1_0000_0000_0000_0000
    ensures var p, q := SettleTrade(s, spec, user, market, Bid, e, None), Get(s, QuoteOf(user, market));
            && p.result == Err(Overflow)
            && Holds(p.store, QuoteOf(user, market), q.available, q.locked - QuoteCost(spec, e.price, e.size))
            && forall k :: k != QuoteOf(user, market) ==> Get(p.store, k) == Get(s, k)
  {
    FeeOf(e.size, Rate(spec, user, e));
  }

  lemma Frees(s: Store, k: Key, amount: nat)
    requires Get(s, k).locked >= amount && Get(s, k).available + amount < 0x1_0000_0000_0000_0000
    ensures UnlockFunds(s, k, amount)
         == Posting(s[k := Balance(Get(s, k).available + amount, Get(s, k).locked - amount)], Ok)
  {
    WordKept(Get(s, k).available + amount);
  }

  lemma PaysAndReceives(s: Store, from: Key, amount: nat, to: Key, credit: nat)
    requires from != to && Get(s, from).locked >= amount
    requires Get(s, to).available + credit < 0x1_0000_0000_0000_0000
    ensures var paid := SubtractLockedFunds(s, from, amount);
            var p := AddFunds(paid.store, to, credit);
            && paid.result == Ok && p.result == Ok
            && Get(p.store, from) == Balance(Get(s, from).available, Get(s, from).locked - amount)
            && Get(p.store, to) == Balance(Get(s, to).available + credit, Get(s, to).locked)
            && forall k :: k != from && k != to ==> Get(p.store, k) == Get(s, k)
  {
  }

  // A release frees what the order still holds at its price.
  lemma Releases(s: Store, specs: seq<Spec>, spec: Spec, c: Command)
    requires FindSpec(specs, c.marketId) == Some(spec)
    requires var b := Get(s, HeldBalance(c));
             b.locked >= Need(spec, c, c.price) && b.available + Need(spec, c, c.price) < 0x1_0000_0000_0000_0000
    ensures var p, b := Release(s, specs, c), Get(s, HeldBalance(c));
            && p.result == Ok
            && Holds(p.store, HeldBalance(c), b.available + Need(spec, c, c.price), b.locked - Need(spec, c, c.price))
            && forall k :: k != HeldBalance(c) ==> Get(p.store, k) == Get(s, k)
  {
    Frees(s, HeldBalance(c), Need(spec, c, c.price));
  }

  // --- Refusals -------------------------------------------------------------------------

  // A posting that is refused names what there is and what was asked for, and moves
  // nothing.
  lemma Refusals(s: Store, k: Key, amount: nat)
    ensures var p, b := LockFunds(s, k, amount), Get(s, k);
            p.result.Err? <==> p.result == Err(InsufficientAvailableFunds(b.available, amount)) && b.available < amount
    ensures var p, b := UnlockFunds(s, k, amount), Get(s, k);
            p.result.Err? <==> p.result == Err(InsufficientLockedFunds(b.locked, amount)) && b.locked < amount
    ensures var p, b := SubtractFunds(s, k, amount), Get(s, k);
            p.result.Err? <==> p.result == Err(InsufficientAvailableFunds(b.available, amount)) && b.available < amount
    ensures var p, b := SubtractLockedFunds(s, k, amount), Get(s, k);
            p.result.Err? <==> p.result == Err(InsufficientLockedFunds(b.locked, amount)) && b.locked < amount
    ensures var p := AddFunds(s, k, amount);
            p.result.Err? <==> p.result == Err(Overflow) && Get(s, k).available + amount >= 0x1_0000_0000_0000_0000
    ensures LockFunds(s, k, amount).result.Err? ==> SameBalances(s, LockFunds(s, k, amount).store)
    ensures UnlockFunds(s, k, amount).result.Err? ==> SameBalances(s, UnlockFunds(s, k, amount).store)
    ensures AddFunds(s, k, amount).result.Err? ==> SameBalances(s, AddFunds(s, k, amount).store)
    ensures SubtractFunds(s, k, amount).result.Err? ==> SameBalances(s, SubtractFunds(s, k, amount).store)
    ensures SubtractLockedFunds(s, k, amount).result.Err? ==> SameBalances(s, SubtractLockedFunds(s, k, amount).store)
  {
  }
}
