// Every step keeps locked funds at least the outstanding claims, and every leg
// and release that comes up can be booked.
module Coverage {
  import opened Orders
  import opened QuoteMath
  import opened AssetTotals
  import opened Ledger
  import opened Shards
  import opened Sums
  import opened Pipeline
  import opened PipelineShape
  import opened PipelineSound
  import opened Claims
  import ClaimsMatching
  import Imbalance

  // Claims are covered, funds are conserved, and net deposits fit a machine word.
  ghost predicate Backed(cfg: Config, s: State) {
    Sound(cfg, s) && Covered(cfg, s) && Imbalance.Conserved(cfg, s) && Imbalance.FeesSign(s) && NetFits(s)
  }

  // --- Claims a step leaves alone -------------------------------------------------------

  lemma SlotClaimSame(cfg: Config, s: State, t: State, k: nat, scope: Scope)
    requires Laid(cfg, s) && Laid(cfg, t) && k < |s.slots| && k < |t.slots| && t.slots[k] == s.slots[k]
    requires Matched(cfg, t, k) <==> Matched(cfg, s, k)
    requires Admitted(cfg, t, k) <==> Admitted(cfg, s, k)
    requires forall part: nat :: PartOpen(cfg, t, k, part) <==> PartOpen(cfg, s, k, part)
    ensures SlotClaim(cfg, t, k, scope) == SlotClaim(cfg, s, k, scope)
  {
    SumSame(OpenClaims(cfg, t, k, scope), OpenClaims(cfg, s, k, scope), Parts(s.slots[k]));
  }

  lemma ElsewhereSame(cfg: Config, s: State, a: Action, k: nat, scope: Scope)
    requires Barriers(cfg, s) && Enabled(cfg, s, a) && !a.Settle? && k < |s.slots| && k != Touched(s, a)
    ensures Laid(cfg, Apply(cfg, s, a))
    ensures SlotClaim(cfg, Apply(cfg, s, a), k, scope) == SlotClaim(cfg, s, k, scope)
  {
    StagesElsewhere(cfg, s, a, k);
    CursorsMove(cfg, s, a);
    SlotClaimSame(cfg, s, Apply(cfg, s, a), k, scope);
  }

  // Only the touched slot's claim changes.
  lemma SlotsChange(cfg: Config, s: State, a: Action, scope: Scope)
    requires Barriers(cfg, s) && Enabled(cfg, s, a) && !a.Settle? && !a.Publish?
    requires Touched(s, a) < |s.slots|
    ensures var t, k := Apply(cfg, s, a), Touched(s, a);
            && Laid(cfg, t) && |t.slots| == |s.slots|
            && SumTo(SlotClaims(cfg, t, scope), |t.slots|)
               == SumTo(SlotClaims(cfg, s, scope), |s.slots|) - SlotClaim(cfg, s, k, scope)
                 + SlotClaim(cfg, t, k, scope)
  {
    var t, k := Apply(cfg, s, a), Touched(s, a);
    CursorsMove(cfg, s, a);
    BarriersKept(cfg, s, a);
    forall l: nat | l < |s.slots| && l != k
      ensures SlotClaims(cfg, s, scope)(l) == SlotClaims(cfg, t, scope)(l)
    {
      ElsewhereSame(cfg, s, a, l, scope);
    }
    SumChange(SlotClaims(cfg, s, scope), SlotClaims(cfg, t, scope), |s.slots|, k);
  }

  lemma BooksSame(cfg: Config, s: State, t: State, scope: Scope)
    requires t.books == s.books
    ensures SumTo(BookClaims(cfg, t, scope), |t.books|) == SumTo(BookClaims(cfg, s, scope), |s.books|)
  {
    SumSame(BookClaims(cfg, t, scope), BookClaims(cfg, s, scope), |s.books|);
  }

  // --- Publishing and journaling -----------------------------------------------------------

  lemma PublishKeeps(cfg: Config, s: State, c: Command, scope: Scope)
    requires Backed(cfg, s) && Enabled(cfg, s, Publish(c))
    ensures var t := Apply(cfg, s, Publish(c));
            Laid(cfg, t) && Outstanding(cfg, t, scope) == Outstanding(cfg, s, scope)
  {
    var t, n := Apply(cfg, s, Publish(c)), |s.slots|;
    forall l: nat | l < n
      ensures SlotClaims(cfg, t, scope)(l) == SlotClaims(cfg, s, scope)(l)
    {
      ElsewhereSame(cfg, s, Publish(c), l, scope);
    }
    SumSame(SlotClaims(cfg, t, scope), SlotClaims(cfg, s, scope), n);
    HomeInRange(cfg.matchShards, c.marketId);
    HomeInRange(cfg.riskShards, c.userId);
    assert !Matched(cfg, t, n) && !Admitted(cfg, t, n);
    var f := SlotClaims(cfg, t, scope);
    assert SumTo(f, n + 1) == SumTo(f, n) + f(n);
    BooksSame(cfg, s, t, scope);
  }

  // Stamping a command changes neither its stage nor what it will claim.
  lemma StampedSlot(cfg: Config, s: State, a: Action, scope: Scope)
    requires Sound(cfg, s) && Enabled(cfg, s, a) && a.Journal?
    ensures var t, k := Apply(cfg, s, a), s.journaled;
            Laid(cfg, t) && SlotClaim(cfg, t, k, scope) == SlotClaim(cfg, s, k, scope)
  {
    var t, k := Apply(cfg, s, a), s.journaled;
    HomeInRange(cfg.matchShards, s.slots[k].marketId);
    assert !Matched(cfg, s, k) && !Matched(cfg, t, k);
    assert Admitted(cfg, t, k) <==> Admitted(cfg, s, k);
  }

  lemma JournalKeeps(cfg: Config, s: State, a: Action, scope: Scope)
    requires Backed(cfg, s) && Enabled(cfg, s, a) && a.Journal?
    ensures var t := Apply(cfg, s, a);
            Laid(cfg, t) && Outstanding(cfg, t, scope) == Outstanding(cfg, s, scope)
  {
    SlotsChange(cfg, s, a, scope);
    BooksSame(cfg, s, Apply(cfg, s, a), scope);
    StampedSlot(cfg, s, a, scope);
  }

  // --- Admission ---------------------------------------------------------------------------

  // The slot being admitted claimed nothing before.
  lemma AdmittedSlot(cfg: Config, s: State, i: nat, bestAsk: nat, scope: Scope)
    requires Sound(cfg, s) && Enabled(cfg, s, Admit(i, bestAsk))
    ensures var t, k := Apply(cfg, s, Admit(i, bestAsk)), s.r1[i];
            && Laid(cfg, t) && k < |t.slots|
            && SlotClaim(cfg, t, k, scope) == SlotClaim(cfg, s, k, scope)
                 + (if !Owns(cfg.riskShards, i, s.slots[k].userId) then 0
                    else WaitingClaim(cfg.specs, t.slots[k], scope))
  {
    var t, k := Apply(cfg, s, Admit(i, bestAsk)), s.r1[i];
    var c := s.slots[k];
    AdmitMoves(cfg, s, i, bestAsk);
    HomeInRange(cfg.matchShards, c.marketId);
    OneOwner(cfg.riskShards, c.userId);
    assert s.mt[c.marketId % cfg.matchShards] <= s.r1[i];
    assert !Matched(cfg, s, k) && !Matched(cfg, t, k);
  }

  lemma AdmitClaims(cfg: Config, s: State, i: nat, bestAsk: nat, scope: Scope)
    requires Backed(cfg, s) && Enabled(cfg, s, Admit(i, bestAsk))
    ensures var t, k := Apply(cfg, s, Admit(i, bestAsk)), s.r1[i];
            && Laid(cfg, t) && k < |t.slots|
            && Outstanding(cfg, t, scope) == Outstanding(cfg, s, scope)
                 + (if !Owns(cfg.riskShards, i, s.slots[k].userId) then 0
                    else WaitingClaim(cfg.specs, t.slots[k], scope))
  {
    AdmitMoves(cfg, s, i, bestAsk);
    SlotsChange(cfg, s, Admit(i, bestAsk), scope);
    BooksSame(cfg, s, Apply(cfg, s, Admit(i, bestAsk)), scope);
    AdmittedSlot(cfg, s, i, bestAsk, scope);
  }

  // A command about to be admitted is as the gateway sent it.
  lemma UnadmittedWaits(cfg: Config, s: State, i: nat)
    requires Sound(cfg, s) && i < cfg.riskShards && s.r1[i] < |s.slots|
    requires Owns(cfg.riskShards, i, s.slots[s.r1[i]].userId)
    ensures Waiting(s.slots[s.r1[i]])
  {
    var k := s.r1[i];
    assert SlotOk(cfg, s, k);
    HomeInRange(cfg.matchShards, s.slots[k].marketId);
    OneOwner(cfg.riskShards, s.slots[k].userId);
    assert s.mt[s.slots[k].marketId % cfg.matchShards] <= s.r1[i];
  }

  // The first stage adds to the locked funds what the command will claim.
  lemma PreProcessLocksIn(s: Store, specs: seq<Spec>, c: Command, bestAsk: nat, scope: Scope)
    requires ReservationLocks(specs, s, c, bestAsk) && c.status == Processing
    ensures var (t, d) := PreProcess(s, specs, c, bestAsk);
            LockedIn(t, scope) == LockedIn(s, scope) + WaitingClaim(specs, d, scope)
  {
    var (t, d) := PreProcess(s, specs, c, bestAsk);
    var key := HeldKey(d);
    var amount := WaitingClaim(specs, d, One(key));
    forall k
      ensures Get(t, k).locked == Get(s, k).locked + Point(key, amount)(k)
    {
      PreProcessLocks(s, specs, c, bestAsk, k);
    }
    LockedMoves(s, t, key, amount, scope);
  }

  lemma AdmitCovers(cfg: Config, s: State, i: nat, bestAsk: nat, scope: Scope)
    requires Backed(cfg, s) && Enabled(cfg, s, Admit(i, bestAsk)) && SupplyFits(cfg, s, Admit(i, bestAsk))
    ensures var t := Apply(cfg, s, Admit(i, bestAsk));
            && Laid(cfg, t)
            && LockedIn(t.store, scope) - Outstanding(cfg, t, scope)
               == LockedIn(s.store, scope) - Outstanding(cfg, s, scope)
  {
    var k := s.r1[i];
    AdmitMoves(cfg, s, i, bestAsk);
    AdmitClaims(cfg, s, i, bestAsk, scope);
    if Owns(cfg.riskShards, i, s.slots[k].userId) {
      UnadmittedWaits(cfg, s, i);
      PreProcessLocksIn(s.store, cfg.specs, s.slots[k], bestAsk, scope);
    }
  }

  // --- Matching ------------------------------------------------------------------------------

  lemma NoneReached(cfg: Config, s: State, t: State, j: nat, part: nat)
    requires Sound(cfg, s) && Enabled(cfg, s, Trade(j)) && t == Apply(cfg, s, Trade(j))
    ensures Laid(cfg, t) && s.mt[j] < |t.slots| && PartOpen(cfg, t, s.mt[j], part)
  {
    TradeMoves(cfg, s, j);
    var i := PartUser(t.slots[s.mt[j]], part) % cfg.riskShards;
    HomeInRange(cfg.riskShards, PartUser(t.slots[s.mt[j]], part));
    assert s.r2[i] <= s.mt[j];
  }

  // A command just matched has all its parts open.
  lemma JustMatched(cfg: Config, s: State, j: nat, scope: Scope)
    requires Backed(cfg, s) && Enabled(cfg, s, Trade(j))
    requires j == s.slots[s.mt[j]].marketId % cfg.matchShards
    ensures var t, k := Apply(cfg, s, Trade(j)), s.mt[j];
            && Laid(cfg, t) && k < |t.slots|
            && SlotClaim(cfg, s, k, scope) == WaitingClaim(cfg.specs, s.slots[k], scope)
            && SlotClaim(cfg, t, k, scope) == ClaimsMatching.Settlement(cfg.specs, t.slots[k], scope)
  {
    var t, k := Apply(cfg, s, Trade(j)), s.mt[j];
    TradeMoves(cfg, s, j);
    TradeReady(cfg, s, j);
    TradeIds(cfg, s, j);
    assert Matched(cfg, t, k);
    forall part: nat
      ensures PartOpen(cfg, t, k, part)
    {
      NoneReached(cfg, s, t, j, part);
    }
    SumSame(OpenClaims(cfg, t, k, scope), AllClaims(cfg.specs, t.slots[k], scope), Parts(t.slots[k]));
  }

  // Handing a command to a book creates no claim.
  lemma BookPays(cfg: Config, s: State, j: nat, x: nat, scope: Scope)
    requires Backed(cfg, s) && Enabled(cfg, s, Trade(j))
    requires var c := s.slots[s.mt[j]];
             ForBook(c) && Owns(cfg.matchShards, j, c.marketId) && MarketIndex(cfg.specs, c.marketId) == Some(x)
    ensures var t, k := Apply(cfg, s, Trade(j)), s.mt[j];
            && x < |cfg.specs| && |t.books| == |s.books| == |cfg.specs|
            && (forall y :: 0 <= y < |s.books| && y != x ==> t.books[y] == s.books[y])
            && BookClaim(cfg.specs[x], s.books[x], scope) + WaitingClaim(cfg.specs, s.slots[k], scope)
               >= BookClaim(cfg.specs[x], t.books[x], scope) + ClaimsMatching.Settlement(cfg.specs, t.slots[k], scope)
  {
    var t, k := Apply(cfg, s, Trade(j)), s.mt[j];
    var c := s.slots[k];
    FindSpecIndex(cfg.specs, c.marketId);
    TradeReady(cfg, s, j);
    assert BookOk(cfg, s, x);
    if c.kind == PlaceOrder {
      ClaimsMatching.PlaceClaims(cfg.specs, cfg.specs[x], s.books[x], c, s.bound, scope);
    } else {
      ClaimsMatching.CancelClaims(cfg.specs, cfg.specs[x], s.books[x], c, scope);
    }
  }

  lemma TradeKeeps(cfg: Config, s: State, j: nat, scope: Scope)
    requires Backed(cfg, s) && Enabled(cfg, s, Trade(j))
    ensures var t := Apply(cfg, s, Trade(j));
            Laid(cfg, t) && Outstanding(cfg, t, scope) <= Outstanding(cfg, s, scope)
  {
    var c := s.slots[s.mt[j]];
    TradeReady(cfg, s, j);
    SlotsChange(cfg, s, Trade(j), scope);
    if j != c.marketId % cfg.matchShards {
      PassedBy(cfg, s, j, scope);
    } else if ForBook(c) && MarketIndex(cfg.specs, c.marketId).Some? {
      BookTrades(cfg, s, j, MarketIndex(cfg.specs, c.marketId).value, scope);
    } else {
      NoBookTrades(cfg, s, j, scope);
    }
  }

  // A router that does not own the market changes nothing.
  lemma PassedBy(cfg: Config, s: State, j: nat, scope: Scope)
    requires Backed(cfg, s) && Enabled(cfg, s, Trade(j)) && j != s.slots[s.mt[j]].marketId % cfg.matchShards
    ensures var t, k := Apply(cfg, s, Trade(j)), s.mt[j];
            && Laid(cfg, t) && SlotClaim(cfg, t, k, scope) == SlotClaim(cfg, s, k, scope)
            && SumTo(BookClaims(cfg, t, scope), |t.books|) == SumTo(BookClaims(cfg, s, scope), |s.books|)
  {
    var t, k := Apply(cfg, s, Trade(j)), s.mt[j];
    TradeReady(cfg, s, j);
    BooksSame(cfg, s, t, scope);
    HomeInRange(cfg.matchShards, s.slots[k].marketId);
    SlotClaimSame(cfg, s, t, k, scope);
  }

  // Its owner, but there is no book for it: nothing was locked for it either.
  lemma NoBookTrades(cfg: Config, s: State, j: nat, scope: Scope)
    requires Backed(cfg, s) && Enabled(cfg, s, Trade(j))
    requires var c := s.slots[s.mt[j]];
             && j == c.marketId % cfg.matchShards && !(ForBook(c) && MarketIndex(cfg.specs, c.marketId).Some?)
    ensures var t, k := Apply(cfg, s, Trade(j)), s.mt[j];
            && Laid(cfg, t) && SlotClaim(cfg, t, k, scope) == 0 == SlotClaim(cfg, s, k, scope)
            && SumTo(BookClaims(cfg, t, scope), |t.books|) == SumTo(BookClaims(cfg, s, scope), |s.books|)
  {
    JustMatched(cfg, s, j, scope);
    TradeReady(cfg, s, j);
    FindSpecIndex(cfg.specs, s.slots[s.mt[j]].marketId);
    BooksSame(cfg, s, Apply(cfg, s, Trade(j)), scope);
  }

  lemma BookTrades(cfg: Config, s: State, j: nat, x: nat, scope: Scope)
    requires Backed(cfg, s) && Enabled(cfg, s, Trade(j))
    requires var c := s.slots[s.mt[j]];
             && j == c.marketId % cfg.matchShards && ForBook(c) && MarketIndex(cfg.specs, c.marketId) == Some(x)
    ensures var t, k := Apply(cfg, s, Trade(j)), s.mt[j];
            && Laid(cfg, t)
            && SlotClaim(cfg, t, k, scope) + SumTo(BookClaims(cfg, t, scope), |t.books|)
               <= SlotClaim(cfg, s, k, scope) + SumTo(BookClaims(cfg, s, scope), |s.books|)
  {
    var t := Apply(cfg, s, Trade(j));
    TradeReady(cfg, s, j);
    JustMatched(cfg, s, j, scope);
    BookPays(cfg, s, j, x, scope);
    SumChange(BookClaims(cfg, s, scope), BookClaims(cfg, t, scope), |s.books|, x);
  }

  // --- Settlement -----------------------------------------------------------------------------

  // A settlement step passes exactly one part, and only for the owner of its user.
  predicate Passes(cfg: Config, s: State, i: nat, k: nat, part: nat)
    requires Laid(cfg, s) && i < cfg.riskShards && k < |s.slots|
  {
    k == s.r2[i] && part == s.leg[i] && PartUser(s.slots[k], part) % cfg.riskShards == i
  }

  lemma OpenAfter(cfg: Config, s: State, i: nat, k: nat, part: nat)
    requires Sound(cfg, s) && Enabled(cfg, s, Settle(i)) && k < |s.slots|
    requires part < Parts(s.slots[k]) || k != s.r2[i]
    requires k == s.r2[i] ==> Settleable(s.slots[k])
    ensures var t := Apply(cfg, s, Settle(i));
            && Laid(cfg, t) && t.slots == s.slots
            && (PartOpen(cfg, t, k, part) <==> PartOpen(cfg, s, k, part) && !Passes(cfg, s, i, k, part))
  {
    SettleMoves(cfg, s, i);
    HomeInRange(cfg.riskShards, PartUser(s.slots[k], part));
  }

  lemma StagesAfterSettle(cfg: Config, s: State, i: nat, k: nat)
    requires Sound(cfg, s) && Enabled(cfg, s, Settle(i)) && k < |s.slots|
    ensures var t := Apply(cfg, s, Settle(i));
            && Laid(cfg, t) && t.slots == s.slots
            && (Matched(cfg, t, k) <==> Matched(cfg, s, k))
            && (Admitted(cfg, t, k) <==> Admitted(cfg, s, k))
            && Matched(cfg, s, s.r2[i])
  {
    SettleMoves(cfg, s, i);
    HomeInRange(cfg.matchShards, s.slots[s.r2[i]].marketId);
  }

  // What the step takes out of the outstanding claims.
  function PassedClaim(cfg: Config, s: State, i: nat, scope: Scope): nat
    requires Laid(cfg, s) && i < cfg.riskShards && s.r2[i] < |s.slots|
  {
    var k, l := s.r2[i], s.leg[i];
    if Settleable(s.slots[k]) && Passes(cfg, s, i, k, l) then PartClaim(cfg.specs, s.slots[k], l, scope) else 0
  }

  lemma OtherSlotsSettle(cfg: Config, s: State, i: nat, k: nat, scope: Scope)
    requires Sound(cfg, s) && Enabled(cfg, s, Settle(i)) && k < |s.slots| && k != s.r2[i]
    ensures Laid(cfg, Apply(cfg, s, Settle(i)))
    ensures SlotClaim(cfg, Apply(cfg, s, Settle(i)), k, scope) == SlotClaim(cfg, s, k, scope)
  {
    StagesAfterSettle(cfg, s, i, k);
    forall part: nat
      ensures PartOpen(cfg, Apply(cfg, s, Settle(i)), k, part) <==> PartOpen(cfg, s, k, part)
    {
      OpenAfter(cfg, s, i, k, part);
    }
    SlotClaimSame(cfg, s, Apply(cfg, s, Settle(i)), k, scope);
  }

  lemma SlotSettles(cfg: Config, s: State, i: nat, scope: Scope)
    requires Sound(cfg, s) && Enabled(cfg, s, Settle(i))
    ensures Laid(cfg, Apply(cfg, s, Settle(i)))
    ensures SlotClaim(cfg, Apply(cfg, s, Settle(i)), s.r2[i], scope)
         == SlotClaim(cfg, s, s.r2[i], scope) - PassedClaim(cfg, s, i, scope)
  {
    var t, k, l := Apply(cfg, s, Settle(i)), s.r2[i], s.leg[i];
    StagesAfterSettle(cfg, s, i, k);
    if Settleable(s.slots[k]) {
      var f, g := OpenClaims(cfg, s, k, scope), OpenClaims(cfg, t, k, scope);
      forall part: nat | part < Parts(s.slots[k])
        ensures g(part) == if part == l then f(l) - PassedClaim(cfg, s, i, scope) else f(part)
      {
        OpenAfter(cfg, s, i, k, part);
      }
      SumChange(f, g, Parts(s.slots[k]), l);
    }
  }

  lemma SettleClaims(cfg: Config, s: State, i: nat, scope: Scope)
    requires Sound(cfg, s) && Enabled(cfg, s, Settle(i))
    ensures Laid(cfg, Apply(cfg, s, Settle(i)))
    ensures Outstanding(cfg, Apply(cfg, s, Settle(i)), scope)
         == Outstanding(cfg, s, scope) - PassedClaim(cfg, s, i, scope)
  {
    var t, k := Apply(cfg, s, Settle(i)), s.r2[i];
    SettleMoves(cfg, s, i);
    SlotSettles(cfg, s, i, scope);
    forall l: nat | l < |s.slots| && l != k
      ensures SlotClaims(cfg, s, scope)(l) == SlotClaims(cfg, t, scope)(l)
    {
      OtherSlotsSettle(cfg, s, i, l, scope);
    }
    SumChange(SlotClaims(cfg, s, scope), SlotClaims(cfg, t, scope), |s.slots|, k);
    BooksSame(cfg, s, t, scope);
  }

  // The part that comes up is open, and every claim of it is covered.
  lemma ComesUp(cfg: Config, s: State, i: nat)
    returns (spec: Spec)
    requires Backed(cfg, s) && Enabled(cfg, s, Settle(i))
    requires var k := s.r2[i]; Settleable(s.slots[k]) && Owns(cfg.riskShards, i, PartUser(s.slots[k], s.leg[i]))
    ensures var k, l := s.r2[i], s.leg[i];
            && Passes(cfg, s, i, k, l) && l < Parts(s.slots[k]) && PartOpen(cfg, s, k, l) && Matched(cfg, s, k)
            && FindSpec(cfg.specs, s.slots[k].marketId) == Some(spec)
  {
    var k, l := s.r2[i], s.leg[i];
    OneOwner(cfg.riskShards, PartUser(s.slots[k], l));
    StagesAfterSettle(cfg, s, i, k);
    assert SlotOk(cfg, s, k);
    spec := FindSpec(cfg.specs, s.slots[k].marketId).value;
  }

  // Its whole debit is locked.
  lemma DebitLocked(cfg: Config, s: State, i: nat, spec: Spec)
    requires Backed(cfg, s) && Enabled(cfg, s, Settle(i))
    requires var k := s.r2[i]; Settleable(s.slots[k]) && Owns(cfg.riskShards, i, PartUser(s.slots[k], s.leg[i]))
    requires FindSpec(cfg.specs, s.slots[s.r2[i]].marketId) == Some(spec)
    ensures var c, l := s.slots[s.r2[i]], s.leg[i];
            Get(s.store, PartKey(spec, c, l)).locked >= PartDebit(spec, c, l)
  {
    var k, l := s.r2[i], s.leg[i];
    var key := PartKey(spec, s.slots[k], l);
    var found := ComesUp(cfg, s, i);
    OutstandingAtLeast(cfg, s, k, l, One(key));
    assert CoveredIn(cfg, s, One(key));
  }

  // ... and what it pays out has room, whatever balance it goes to.
  lemma CreditRoom(cfg: Config, s: State, i: nat, key: Key)
    requires Backed(cfg, s) && Enabled(cfg, s, Settle(i))
    requires var k := s.r2[i]; Settleable(s.slots[k]) && Owns(cfg.riskShards, i, PartUser(s.slots[k], s.leg[i]))
    ensures Get(s.store, key).available
            + Imbalance.PartWorth(cfg.specs, s.slots[s.r2[i]], s.leg[i], key.asset) <= U64_MAX
  {
    var spec := ComesUp(cfg, s, i);
    assert CoveredIn(cfg, s, All(key.asset)) && Imbalance.ConservedIn(cfg, s, key.asset);
    Imbalance.AvailableRoom(cfg, s, s.r2[i], s.leg[i], key);
  }

  lemma LegCanBook(cfg: Config, s: State, i: nat, spec: Spec)
    requires Backed(cfg, s) && Enabled(cfg, s, Settle(i))
    requires var k := s.r2[i]; Settleable(s.slots[k]) && Owns(cfg.riskShards, i, PartUser(s.slots[k], s.leg[i]))
    requires FindSpec(cfg.specs, s.slots[s.r2[i]].marketId) == Some(spec) && s.leg[i] < LegCount(s.slots[s.r2[i]])
    ensures var c, l := s.slots[s.r2[i]], s.leg[i]; CanBook(s.store, LegTerms(spec, c, l), LegRefund(spec, c, l))
  {
    var c, l := s.slots[s.r2[i]], s.leg[i];
    var t := LegTerms(spec, c, l);
    DebitLocked(cfg, s, i, spec);
    CreditRoom(cfg, s, i, t.give);
    CreditRoom(cfg, s, i, t.get);
    Imbalance.LegFee(cfg, c, l, spec);
  }

  // The heart of the ledger: a leg or a release that comes up succeeds.
  lemma SettleSucceeds(cfg: Config, s: State, i: nat)
    returns (spec: Spec)
    requires Backed(cfg, s) && Enabled(cfg, s, Settle(i))
    requires var k := s.r2[i]; Settleable(s.slots[k]) && Owns(cfg.riskShards, i, PartUser(s.slots[k], s.leg[i]))
    ensures var c, l := s.slots[s.r2[i]], s.leg[i];
            && FindSpec(cfg.specs, c.marketId) == Some(spec)
            && (l < LegCount(c) ==>
                  SettleLeg(s.store, cfg.specs, c, l).result == Ok
                  && LegBooked(spec, c, l, s.store, SettleLeg(s.store, cfg.specs, c, l).store))
            && (l == LegCount(c) && ReleaseDue(c) ==>
                  Release(s.store, cfg.specs, c).result == Ok
                  && Freed(spec, c, s.store, Release(s.store, cfg.specs, c).store))
  {
    spec := ComesUp(cfg, s, i);
    var c, l := s.slots[s.r2[i]], s.leg[i];
    if l < LegCount(c) {
      LegCanBook(cfg, s, i, spec);
      LegSucceeds(s.store, cfg.specs, spec, c, l);
    } else if ReleaseDue(c) {
      DebitLocked(cfg, s, i, spec);
      CreditRoom(cfg, s, i, HeldKey(c));
      forall key
        ensures FreedAt(spec, c, s.store, Release(s.store, cfg.specs, c).store, key)
      {
        ReleaseSucceeds(s.store, cfg.specs, spec, c, key);
      }
      ReleaseSucceeds(s.store, cfg.specs, spec, c, HeldKey(c));
    }
  }

  // A balance after a release: the amount moved from locked to available.
  predicate FreedAt(spec: Spec, c: Command, before: Store, after: Store, key: Key) {
    Shifted(Get(before, key), Get(after, key),
            if key == HeldKey(c) then 0 - Held(spec, c.side, c.price, c.size) as int else 0, 0)
  }

  ghost predicate Freed(spec: Spec, c: Command, before: Store, after: Store) {
    forall key :: FreedAt(spec, c, before, after, key)
  }

  // A settlement step takes out of the locked funds what it takes out of the claims.
  lemma SettleCovers(cfg: Config, s: State, i: nat, scope: Scope)
    requires Backed(cfg, s) && Enabled(cfg, s, Settle(i))
    ensures LockedIn(Apply(cfg, s, Settle(i)).store, scope) == LockedIn(s.store, scope) - PassedClaim(cfg, s, i, scope)
  {
    var k, l := s.r2[i], s.leg[i];
    var c := s.slots[k];
    OneOwner(cfg.riskShards, PartUser(c, l));
    if Settleable(c) && Owns(cfg.riskShards, i, PartUser(c, l)) {
      var spec := SettleSucceeds(cfg, s, i);
      var t := Apply(cfg, s, Settle(i));
      var key, amount := PartKey(spec, c, l), 0 - PartDebit(spec, c, l) as int;
      PartTaken(cfg, s, i, spec);
      LockedMoves(s.store, t.store, key, amount, scope);
    }
  }

  lemma PartTaken(cfg: Config, s: State, i: nat, spec: Spec)
    requires Backed(cfg, s) && Enabled(cfg, s, Settle(i))
    requires var k := s.r2[i]; Settleable(s.slots[k]) && Owns(cfg.riskShards, i, PartUser(s.slots[k], s.leg[i]))
    requires FindSpec(cfg.specs, s.slots[s.r2[i]].marketId) == Some(spec)
    ensures var c, l := s.slots[s.r2[i]], s.leg[i];
            var key, amount := PartKey(spec, c, l), 0 - PartDebit(spec, c, l) as int;
            forall k :: Get(Apply(cfg, s, Settle(i)).store, k).locked == Get(s.store, k).locked + Point(key, amount)(k)
  {
    var c, l := s.slots[s.r2[i]], s.leg[i];
    var found := SettleSucceeds(cfg, s, i);
    var after := Apply(cfg, s, Settle(i)).store;
    forall k
      ensures Get(after, k).locked
           == Get(s.store, k).locked + Point(PartKey(spec, c, l), 0 - PartDebit(spec, c, l) as int)(k)
    {
      if l < LegCount(c) {
        assert BookedAt(spec, c, l, s.store, SettleLeg(s.store, cfg.specs, c, l).store, k);
      } else if ReleaseDue(c) {
        assert FreedAt(spec, c, s.store, Release(s.store, cfg.specs, c).store, k);
      }
    }
  }

  // --- All steps ---------------------------------------------------------------------------------

  // No step lets claims outgrow locked funds; only matching can leave some funds
  // locked without a claim.
  lemma StepCovers(cfg: Config, s: State, a: Action, scope: Scope)
    requires Backed(cfg, s) && Enabled(cfg, s, a) && SupplyFits(cfg, s, a)
    ensures var t := Apply(cfg, s, a);
            && Laid(cfg, t)
            && LockedIn(t.store, scope) - Outstanding(cfg, t, scope)
               >= LockedIn(s.store, scope) - Outstanding(cfg, s, scope)
            && (!a.Trade? ==> LockedIn(t.store, scope) - Outstanding(cfg, t, scope)
                              == LockedIn(s.store, scope) - Outstanding(cfg, s, scope))
  {
    match a {
      case Publish(c) => PublishKeeps(cfg, s, c, scope);
      case Journal(_, _) => JournalKeeps(cfg, s, a, scope);
      case Admit(i, bestAsk) => AdmitCovers(cfg, s, i, bestAsk, scope);
      case Trade(j) =>
        TradeMoves(cfg, s, j);
        TradeKeeps(cfg, s, j, scope);
      case Settle(i) =>
        SettleClaims(cfg, s, i, scope);
        SettleCovers(cfg, s, i, scope);
    }
  }
}
