// Quote amounts. Every reservation, settlement and release of quote currency
// goes through one floored division on 128-bit integers whose result is cut to
// 64 bits. The theorems say when a single reservation covers all later pieces.
module QuoteMath {
  import opened Arithmetic
  import opened Orders

  datatype Spec = Spec(
    market: nat,
    baseNativeScale: nat,
    quoteNativeScale: nat,
    quoteScaleK: nat,
    takerFee: nat,
    makerFee: nat,
    slippage: nat)

  // A market id packs the quote asset above the base asset.
  function BaseAsset(market: nat): nat { market % 0x1_0000 }

  function QuoteAsset(market: nat): nat { (market / 0x1_0000) % 0x1_0000 }

  function Denominator(s: Spec): nat { s.baseNativeScale * s.quoteScaleK }

  function Numerator(s: Spec, price: nat, size: nat): nat { price * size * s.quoteNativeScale }

  // The arithmetic of a release build: the product wraps at 128 bits and the
  // quotient is cut to 64.
  function QuoteCost(s: Spec, price: nat, size: nat): (q: nat)
    ensures q <= U64_MAX
  {
    if Denominator(s) == 0 then 0
    else Wrap64((Numerator(s, price, size) % TWO_128) / Denominator(s))
  }

  // Nothing wraps and nothing is cut.
  predicate Fits(s: Spec, price: nat, size: nat) {
    Denominator(s) == 0
    || (Numerator(s, price, size) < TWO_128 && Numerator(s, price, size) / Denominator(s) <= U64_MAX)
  }

  // What a cost is: as long as the product stays below 2^128 and the quotient below
  // 2^64, the whole number of quote units nearest below
  // price * size * quoteNativeScale / (baseNativeScale * quoteScaleK).
  lemma CostIsFloor(s: Spec, price: nat, size: nat)
    requires 0 < s.baseNativeScale * s.quoteScaleK
    requires price * size * s.quoteNativeScale < 0x1_0000_0000_0000_0000_0000_0000_0000_0000
    requires price * size * s.quoteNativeScale < 0x1_0000_0000_0000_0000 * (s.baseNativeScale * s.quoteScaleK)
    ensures var d, q := s.baseNativeScale * s.quoteScaleK, QuoteCost(s, price, size);
            q * d <= price * size * s.quoteNativeScale < (q + 1) * d
  {
    var n, d := price * size * s.quoteNativeScale, s.baseNativeScale * s.quoteScaleK;
    QuotientBelow(n, d, 0x1_0000_0000_0000_0000);
    FitsCost(s, price, size);
    FloorOf(n, d);
  }

  lemma QuotientBelow(n: nat, d: nat, bound: nat)
    requires d > 0 && n < bound * d
    ensures n / d < bound
  {
    if n / d >= bound {
      MulMono(bound, n / d, d);
      FloorOf(n, d);
    }
  }

  lemma FloorOf(n: nat, d: nat)
    requires d > 0
    ensures n / d * d <= n < (n / d + 1) * d
  {
    assert n == d * (n / d) + n % d;
    Distribute(n / d, 1, d);
  }

  // In every case: k times 2^128 are lost of the product, m times 2^64 of the quotient.
  lemma CostWraps(s: Spec, price: nat, size: nat) returns (k: nat, m: nat)
    requires 0 < s.baseNativeScale * s.quoteScaleK
    ensures var d, n := s.baseNativeScale * s.quoteScaleK, price * size * s.quoteNativeScale;
            var kept := n - k * 0x1_0000_0000_0000_0000_0000_0000_0000_0000;
            var q := QuoteCost(s, price, size) + m * 0x1_0000_0000_0000_0000;
            && 0 <= kept < 0x1_0000_0000_0000_0000_0000_0000_0000_0000
            && q * d <= kept < (q + 1) * d
  {
    var n, d := price * size * s.quoteNativeScale, s.baseNativeScale * s.quoteScaleK;
    var kept := n % 0x1_0000_0000_0000_0000_0000_0000_0000_0000;
    k := n / 0x1_0000_0000_0000_0000_0000_0000_0000_0000;
    QuotientSign(kept, d);
    m := (kept / d) / 0x1_0000_0000_0000_0000;
    FloorOf(kept, d);
  }

  // Without a base scale or a quote step nothing is counted.
  lemma CostWithoutScale(s: Spec, price: nat, size: nat)
    requires s.baseNativeScale == 0 || s.quoteScaleK == 0
    ensures QuoteCost(s, price, size) == 0
  {
  }

  // The quote asset is the upper half of a market id and the base asset the lower.
  lemma MarketAssets(base: nat, quote: nat)
    requires base < 0x1_0000 && quote < 0x1_0000
    ensures BaseAsset(quote * 0x1_0000 + base) == base && QuoteAsset(quote * 0x1_0000 + base) == quote
  {
  }

  // --- Monotone and additive costs ------------------------------------------------------

  lemma NumeratorMono(s: Spec, p: nat, v: nat, price: nat, size: nat)
    requires p <= price && v <= size
    ensures Numerator(s, p, v) <= Numerator(s, price, size)
  {
    MulMono(p, price, v);
    assert price * v <= price * size;
    MulMono(p * v, price * size, s.quoteNativeScale);
  }

  // Smaller prices and sizes fit whenever larger ones do.
  lemma FitsMono(s: Spec, p: nat, v: nat, price: nat, size: nat)
    requires Fits(s, price, size) && p <= price && v <= size
    ensures Fits(s, p, v)
  {
    if Denominator(s) != 0 {
      NumeratorMono(s, p, v, price, size);
      DivMono(Numerator(s, p, v), Numerator(s, price, size), Denominator(s));
    }
  }

  lemma SplitPrice(s: Spec, price: nat, p: nat, size: nat)
    requires p <= price
    ensures Numerator(s, price - p, size) + Numerator(s, p, size) == Numerator(s, price, size)
  {
    assert (price - p) * size + p * size == price * size;
    Distribute((price - p) * size, p * size, s.quoteNativeScale);
  }

  lemma SplitSize(s: Spec, price: nat, v: nat, w: nat)
    ensures Numerator(s, price, v) + Numerator(s, price, w) == Numerator(s, price, v + w)
  {
    assert price * v + price * w == price * (v + w);
    Distribute(price * v, price * w, s.quoteNativeScale);
  }

  lemma FitsCost(s: Spec, price: nat, size: nat)
    requires Fits(s, price, size) && Denominator(s) != 0
    ensures QuoteCost(s, price, size) == Numerator(s, price, size) / Denominator(s)
  {
    SmallMod(Numerator(s, price, size));
  }

  lemma SmallMod(n: nat)
    requires n < TWO_128
    ensures n % TWO_128 == n
  {
  }

  // An order at price 0 costs nothing and always fits.
  lemma FreeAtZero(s: Spec, size: nat)
    ensures Fits(s, 0, size) && QuoteCost(s, 0, size) == 0
  {
    assert Numerator(s, 0, size) == 0;
  }

  // A cost split by size: the floors of the parts never exceed the floor of the
  // whole, and lose at most one unit.
  lemma CostSplitSize(s: Spec, price: nat, v: nat, w: nat)
    requires Fits(s, price, v + w)
    ensures QuoteCost(s, price, v) + QuoteCost(s, price, w) <= QuoteCost(s, price, v + w)
    ensures QuoteCost(s, price, v + w) <= QuoteCost(s, price, v) + QuoteCost(s, price, w) + 1
  {
    if Denominator(s) != 0 {
      FitsMono(s, price, v, price, v + w);
      FitsMono(s, price, w, price, v + w);
      FitsCost(s, price, v + w);
      FitsCost(s, price, v);
      FitsCost(s, price, w);
      SplitSize(s, price, v, w);
      DivPlus(Numerator(s, price, v), Numerator(s, price, w), Denominator(s));
    }
  }

  // ... and likewise split by price: a refund and a spend.
  lemma CostSplitPrice(s: Spec, price: nat, p: nat, size: nat)
    requires Fits(s, price, size) && p <= price
    ensures QuoteCost(s, price - p, size) + QuoteCost(s, p, size) <= QuoteCost(s, price, size)
    ensures QuoteCost(s, price, size) <= QuoteCost(s, price - p, size) + QuoteCost(s, p, size) + 1
  {
    if Denominator(s) != 0 {
      FitsMono(s, price - p, size, price, size);
      FitsMono(s, p, size, price, size);
      FitsCost(s, price, size);
      FitsCost(s, price - p, size);
      FitsCost(s, p, size);
      SplitPrice(s, price, p, size);
      DivPlus(Numerator(s, price - p, size), Numerator(s, p, size), Denominator(s));
    }
  }

  // --- One reservation, many pieces -----------------------------------------------------

  datatype Execution = Execution(price: nat, size: nat)

  // What one execution of a bid takes out of its reservation: the refund for
  // the better price and the spend.
  function Debit(s: Spec, limit: nat, e: Execution): nat
    requires e.price <= limit
  {
    QuoteCost(s, limit - e.price, e.size) + QuoteCost(s, e.price, e.size)
  }

  ghost predicate WithinLimit(limit: nat, executions: seq<Execution>) {
    forall e :: e in executions ==> e.price <= limit
  }

  function ExecutedSize(executions: seq<Execution>): nat {
    if executions == [] then 0 else executions[0].size + ExecutedSize(executions[1..])
  }

  function Debits(s: Spec, limit: nat, executions: seq<Execution>): nat
    requires forall e :: e in executions ==> e.price <= limit
  {
    if executions == [] then 0
    else Debit(s, limit, executions[0]) + Debits(s, limit, executions[1..])
  }

  // A bid locked once covers every sequence of executions and a final release of
  // the rest, and what stays behind is at most two units per execution.
  lemma {:induction false} ReservationCovers(s: Spec, limit: nat, executions: seq<Execution>, rest: nat)
    requires WithinLimit(limit, executions)
    requires Fits(s, limit, ExecutedSize(executions) + rest)
    ensures var locked := QuoteCost(s, limit, ExecutedSize(executions) + rest);
            var used := Debits(s, limit, executions) + QuoteCost(s, limit, rest);
            used <= locked <= used + 2 * |executions|
  {
    if executions != [] {
      var e, tail := executions[0], executions[1..];
      var left := ExecutedSize(tail) + rest;
      FitsMono(s, limit, left, limit, e.size + left);
      FitsMono(s, limit, e.size, limit, e.size + left);
      ReservationCovers(s, limit, tail, rest);
      CostSplitSize(s, limit, e.size, left);
      CostSplitPrice(s, limit, e.price, e.size);
    }
  }

  // With whole quote units per price step, every cost is exact ...
  lemma CostExact(s: Spec, price: nat, size: nat, unit: nat)
    requires s.baseNativeScale * s.quoteScaleK > 0
    requires s.quoteNativeScale == unit * (s.baseNativeScale * s.quoteScaleK)
    requires Fits(s, price, size)
    ensures QuoteCost(s, price, size) == price * size * unit
  {
    var d := Denominator(s);
    FitsCost(s, price, size);
    assert Numerator(s, price, size) == price * size * unit * d;
    DivCancel(price * size * unit, d);
  }

  // ... and nothing stays behind.
  lemma {:induction false} ReservationExact(s: Spec, limit: nat, executions: seq<Execution>, rest: nat, unit: nat)
    requires WithinLimit(limit, executions)
    requires Fits(s, limit, ExecutedSize(executions) + rest)
    requires s.baseNativeScale * s.quoteScaleK > 0
    requires s.quoteNativeScale == unit * (s.baseNativeScale * s.quoteScaleK)
    ensures QuoteCost(s, limit, ExecutedSize(executions) + rest)
         == Debits(s, limit, executions) + QuoteCost(s, limit, rest)
  {
    if executions != [] {
      var e, tail := executions[0], executions[1..];
      var left := ExecutedSize(tail) + rest;
      FitsMono(s, limit, left, limit, e.size + left);
      FitsMono(s, limit, e.size, limit, e.size + left);
      FitsMono(s, limit - e.price, e.size, limit, e.size);
      FitsMono(s, e.price, e.size, limit, e.size);
      ReservationExact(s, limit, tail, rest, unit);
      CostExact(s, limit, e.size + left, unit);
      CostExact(s, limit, left, unit);
      CostExact(s, limit - e.price, e.size, unit);
      CostExact(s, e.price, e.size, unit);
      ExactSplit(limit, e.price, e.size, left, unit);
    }
  }

  lemma ExactSplit(limit: nat, p: nat, v: nat, w: nat, unit: nat)
    requires p <= limit
    ensures limit * (v + w) * unit == (limit - p) * v * unit + p * v * unit + limit * w * unit
  {
    assert limit * (v + w) == (limit - p) * v + p * v + limit * w;
    Distribute((limit - p) * v, p * v, unit);
    Distribute((limit - p) * v + p * v, limit * w, unit);
  }

  // Without `Fits` the claim is false: the cut quotient of a large order can be
  // smaller than the cost of two units of it.
  lemma CutReservationFails()
    ensures var s := Spec(0, 1, 1, 1, 0, 0, 0);
            var price, size := 0x1_0000_0000, 0x1_0000_0001;
            && !Fits(s, price, size)
            && QuoteCost(s, price, size) < QuoteCost(s, price, 2)
  {
    var s := Spec(0, 1, 1, 1, 0, 0, 0);
    assert Numerator(s, 0x1_0000_0000, 0x1_0000_0001) == 0x1_0000_0001_0000_0000;
    assert Numerator(s, 0x1_0000_0000, 2) == 0x2_0000_0000;
  }
}
