// The imbalance of half-settled trades, and why every credit has room: what is
// available of an asset, and what open legs will still credit, never exceeds net
// deposits.
module Imbalance {
  import Arithmetic
  import opened Orders
  import opened QuoteMath
  import opened AssetTotals
  import opened Ledger
  import opened Sums
  import opened Pipeline
  import PipelineShape
  import opened Claims

  // What one leg adds to the holdings of an asset before its fee: the gross
  // credit less what was given.
  function LegNet(specs: seq<Spec>, c: Command, leg: nat, asset: nat): int {
    match FindSpec(specs, c.marketId)
    case None => 0
    case Some(spec) =>
      if leg >= LegCount(c) then 0
      else
        var t := LegTerms(spec, c, leg);
        Of(t.get, asset, t.gross) - Of(t.give, asset, t.giveAmount)
  }

  function BookedNets(cfg: Config, s: State, k: nat, asset: nat): nat -> int
    requires Laid(cfg, s) && k < |s.slots|
  {
    (leg: nat) => if PartOpen(cfg, s, k, leg) then 0 else LegNet(cfg.specs, s.slots[k], leg, asset)
  }

  // The imbalance of a trade whose one leg is booked and whose other is not.
  function SlotNet(cfg: Config, s: State, k: nat, asset: nat): int
    requires Laid(cfg, s)
  {
    if k < |s.slots| && PipelineShape.Matched(cfg, s, k) && Settleable(s.slots[k])
    then SumTo(BookedNets(cfg, s, k, asset), Parts(s.slots[k])) else 0
  }

  function SlotNets(cfg: Config, s: State, asset: nat): nat -> int
    requires Laid(cfg, s)
  {
    (k: nat) => SlotNet(cfg, s, k, asset)
  }

  ghost predicate ConservedIn(cfg: Config, s: State, asset: nat)
    requires Laid(cfg, s)
  {
    Holdings(s.store, asset) + At(s.fees, asset) == At(s.net, asset) + SumTo(SlotNets(cfg, s, asset), |s.slots|)
  }

  ghost predicate Conserved(cfg: Config, s: State)
    requires Laid(cfg, s)
  {
    forall asset :: ConservedIn(cfg, s, asset)
  }

  // --- Both legs of a trade -------------------------------------------------------------

  // Maker and taker swap the same base and the same quote amount.
  lemma LegsCancel(specs: seq<Spec>, c: Command, i: nat, asset: nat)
    requires i < |c.events|
    ensures LegNet(specs, c, 2 * i, asset) + LegNet(specs, c, 2 * i + 1, asset) == 0
  {
    assert (2 * i) / 2 == i && (2 * i) % 2 == 0 && (2 * i + 1) / 2 == i && (2 * i + 1) % 2 == 1;
    if FindSpec(specs, c.marketId).Some? {
      var spec, e := FindSpec(specs, c.marketId).value, c.events[i];
      var made := TradeTerms(spec, e.makerUser, c.marketId, c.side.Opposite(), e);
      var taken := TradeTerms(spec, c.userId, c.marketId, c.side, e);
      assert LegTerms(spec, c, 2 * i) == made && LegTerms(spec, c, 2 * i + 1) == taken;
      assert made.gross == taken.giveAmount && made.giveAmount == taken.gross;
      assert made.get.asset == taken.give.asset && made.give.asset == taken.get.asset;
    }
  }

  lemma {:induction false} AllLegsCancel(specs: seq<Spec>, c: Command, f: nat -> int, i: nat, asset: nat)
    requires i <= |c.events|
    requires forall leg: nat :: f(leg) == LegNet(specs, c, leg, asset)
    ensures SumTo(f, 2 * i) == 0
  {
    if i > 0 {
      AllLegsCancel(specs, c, f, i - 1, asset);
      LegsCancel(specs, c, i - 1, asset);
      SumTwo(f, 2 * (i - 1));
    }
  }

  // A command wholly settled, or not touched at all, leaves no imbalance.
  ghost predicate Whole(cfg: Config, s: State, k: nat)
    requires Laid(cfg, s) && k < |s.slots|
  {
    || (forall part: nat :: part < Parts(s.slots[k]) ==> PartOpen(cfg, s, k, part))
    || (forall part: nat :: part < Parts(s.slots[k]) ==> !PartOpen(cfg, s, k, part))
  }

  lemma WholeSlot(cfg: Config, s: State, k: nat, asset: nat)
    requires Laid(cfg, s) && k < |s.slots| && Whole(cfg, s, k)
    ensures SlotNet(cfg, s, k, asset) == 0
  {
    var c, f := s.slots[k], BookedNets(cfg, s, k, asset);
    if forall part: nat :: part < Parts(c) ==> PartOpen(cfg, s, k, part) {
      SumZero(f, Parts(c));
    } else {
      var g := (leg: nat) => LegNet(cfg.specs, c, leg, asset);
      SumSame(f, g, Parts(c));
      AllLegsCancel(cfg.specs, c, g, |c.events|, asset);
      assert SumTo(g, Parts(c)) == SumTo(g, 2 * |c.events|) + g(2 * |c.events|);
    }
  }

  // --- Fees ---------------------------------------------------------------------------------

  // A fee is never more than the amount it is taken from, and while its product
  // fits a word it is the floor of the basis points.
  lemma FeeWithin(amount: nat, bps: nat)
    requires bps <= 10000
    ensures FeeOn(amount, bps) <= amount
    ensures Net(amount, FeeOn(amount, bps)) + FeeOn(amount, bps) == amount
    ensures amount * bps <= U64_MAX ==> FeeOn(amount, bps) == amount * bps / 10000
  {
    Arithmetic.MulMono(bps, 10000, amount);
    BasisPoints(amount * bps, amount);
  }

  lemma BasisPoints(product: nat, amount: nat)
    requires product <= amount * 10000
    ensures Wrap64(product) / 10000 <= amount
    ensures product <= U64_MAX ==> Wrap64(product) == product
  {
    WrapShrinks(product);
  }

  lemma FindSpecMember(specs: seq<Spec>, market: nat)
    ensures FindSpec(specs, market).Some? ==> FindSpec(specs, market).value in specs
  {
    PipelineShape.FindSpecIndex(specs, market);
  }

  // No fee is ever negative.
  ghost predicate FeesSign(s: State) {
    forall asset :: At(s.fees, asset) >= 0
  }

  lemma LegFee(cfg: Config, c: Command, leg: nat, spec: Spec)
    requires GoodConfig(cfg) && leg < LegCount(c) && FindSpec(cfg.specs, c.marketId) == Some(spec)
    ensures var t := LegTerms(spec, c, leg);
            Net(t.gross, t.fee) == t.gross - t.fee && t.fee <= t.gross
  {
    FindSpecMember(cfg.specs, c.marketId);
    var t := LegTerms(spec, c, leg);
    FeeWithin(t.gross, spec.makerFee);
    FeeWithin(t.gross, spec.takerFee);
  }

  // --- Room ------------------------------------------------------------------------------------

  // What an open part still pays out: a refund or a release to its giver, and the
  // gross credit of the leg.
  function PartWorth(specs: seq<Spec>, c: Command, part: nat, asset: nat): int {
    match FindSpec(specs, c.marketId)
    case None => 0
    case Some(spec) =>
      if part < LegCount(c) then
        var t := LegTerms(spec, c, part);
        Of(t.give, asset, LegRefund(spec, c, part)) + Of(t.get, asset, t.gross)
      else Of(HeldKey(c), asset, PartDebit(spec, c, part))
  }

  lemma WorthIsClaimAndNet(specs: seq<Spec>, c: Command, part: nat, asset: nat)
    ensures PartWorth(specs, c, part, asset) == PartClaim(specs, c, part, All(asset)) + LegNet(specs, c, part, asset)
    ensures PartWorth(specs, c, part, asset) >= 0
  {
  }

  function OpenWorth(cfg: Config, s: State, k: nat, asset: nat): nat -> int
    requires Laid(cfg, s) && k < |s.slots|
  {
    (part: nat) => if PartOpen(cfg, s, k, part) then PartWorth(cfg.specs, s.slots[k], part, asset) else 0
  }

  function OpenNets(cfg: Config, s: State, k: nat, asset: nat): nat -> int
    requires Laid(cfg, s) && k < |s.slots|
  {
    (leg: nat) => if PartOpen(cfg, s, k, leg) then LegNet(cfg.specs, s.slots[k], leg, asset) else 0
  }

  // Open claims less the imbalance of a command are what it still pays out.
  lemma SlotWorth(cfg: Config, s: State, k: nat, asset: nat)
    requires Laid(cfg, s) && k < |s.slots| && PipelineShape.Matched(cfg, s, k) && Settleable(s.slots[k])
    ensures SlotClaim(cfg, s, k, All(asset)) - SlotNet(cfg, s, k, asset)
         == SumTo(OpenWorth(cfg, s, k, asset), Parts(s.slots[k]))
  {
    var c := s.slots[k];
    var claims, worth := OpenClaims(cfg, s, k, All(asset)), OpenWorth(cfg, s, k, asset);
    var open, booked := OpenNets(cfg, s, k, asset), BookedNets(cfg, s, k, asset);
    var all := (leg: nat) => LegNet(cfg.specs, c, leg, asset);
    forall part: nat | part < Parts(c)
      ensures worth(part) == claims(part) + open(part) && all(part) == open(part) + booked(part)
    {
      WorthIsClaimAndNet(cfg.specs, c, part, asset);
    }
    SumAdd(claims, open, worth, Parts(c));
    SumAdd(open, booked, all, Parts(c));
    AllLegsCancel(cfg.specs, c, all, |c.events|, asset);
    assert SumTo(all, Parts(c)) == SumTo(all, 2 * |c.events|) + all(2 * |c.events|);
  }

  lemma SlotWorthSign(cfg: Config, s: State, k: nat, asset: nat)
    requires Laid(cfg, s)
    ensures SlotClaim(cfg, s, k, All(asset)) >= SlotNet(cfg, s, k, asset)
  {
    if k < |s.slots| && PipelineShape.Matched(cfg, s, k) && Settleable(s.slots[k]) {
      SlotWorth(cfg, s, k, asset);
      forall part: nat | part < Parts(s.slots[k])
        ensures OpenWorth(cfg, s, k, asset)(part) >= 0
      {
        WorthIsClaimAndNet(cfg.specs, s.slots[k], part, asset);
      }
      SumNonNegative(OpenWorth(cfg, s, k, asset), Parts(s.slots[k]));
    } else {
      SlotClaimSign(cfg, s, k, All(asset));
    }
  }

  // One open part among all claims of its asset.
  lemma PartAmongClaims(cfg: Config, s: State, k: nat, part: nat, asset: nat)
    requires Laid(cfg, s) && k < |s.slots| && part < Parts(s.slots[k])
    requires PipelineShape.Matched(cfg, s, k) && Settleable(s.slots[k]) && PartOpen(cfg, s, k, part)
    ensures Outstanding(cfg, s, All(asset)) - SumTo(SlotNets(cfg, s, asset), |s.slots|)
         >= PartWorth(cfg.specs, s.slots[k], part, asset)
  {
    var claims, nets := SlotClaims(cfg, s, All(asset)), SlotNets(cfg, s, asset);
    var rest := (l: nat) => claims(l) - nets(l);
    forall l: nat | l < |s.slots|
      ensures rest(l) >= 0
    {
      SlotWorthSign(cfg, s, l, asset);
    }
    forall p: nat | p < Parts(s.slots[k])
      ensures OpenWorth(cfg, s, k, asset)(p) >= 0
    {
      WorthIsClaimAndNet(cfg.specs, s.slots[k], p, asset);
    }
    SlotWorth(cfg, s, k, asset);
    SumAtLeast(OpenWorth(cfg, s, k, asset), Parts(s.slots[k]), part);
    SumAtLeast(rest, |s.slots|, k);
    SumAdd(rest, nets, claims, |s.slots|);
    SumNonNegative(BookClaims(cfg, s, All(asset)), |s.books|);
  }

  // Claims on an asset are at least the imbalance of all commands in it.
  lemma ClaimsExceedNets(cfg: Config, s: State, asset: nat)
    requires Laid(cfg, s)
    ensures Outstanding(cfg, s, All(asset)) >= SumTo(SlotNets(cfg, s, asset), |s.slots|)
  {
    var claims, nets := SlotClaims(cfg, s, All(asset)), SlotNets(cfg, s, asset);
    var rest := (l: nat) => claims(l) - nets(l);
    forall l: nat | l < |s.slots|
      ensures rest(l) >= 0
    {
      SlotWorthSign(cfg, s, l, asset);
    }
    SumNonNegative(rest, |s.slots|);
    SumAdd(rest, nets, claims, |s.slots|);
    SumNonNegative(BookClaims(cfg, s, All(asset)), |s.books|);
  }

  // The available funds of one balance and all that an open part still pays out in
  // their asset stay within net deposits.
  lemma AvailableRoom(cfg: Config, s: State, k: nat, part: nat, key: Key)
    requires Laid(cfg, s) && k < |s.slots| && part < Parts(s.slots[k])
    requires PipelineShape.Matched(cfg, s, k) && Settleable(s.slots[k]) && PartOpen(cfg, s, k, part)
    requires CoveredIn(cfg, s, All(key.asset)) && ConservedIn(cfg, s, key.asset) && FeesSign(s)
    ensures Get(s.store, key).available + PartWorth(cfg.specs, s.slots[k], part, key.asset) <= At(s.net, key.asset)
  {
    HoldingsSplit(s.store, key.asset);
    AvailableWithin(s.store, key);
    PartAmongClaims(cfg, s, k, part, key.asset);
  }
}
