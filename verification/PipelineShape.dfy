// What every step of the pipeline keeps about cursors, commands and books.
module PipelineShape {
  import opened Orders
  import Matching
  import BookLaws
  import opened Ledger
  import opened Pipeline
  import PriceTime
  import BookRuns
  import QuoteMath

  // --- Cursors ----------------------------------------------------------------------

  // The stage barriers, as inequalities between cursors.
  ghost predicate Barriers(cfg: Config, s: State) {
    && Laid(cfg, s)
    && s.journaled <= |s.slots|
    && (forall i :: 0 <= i < cfg.riskShards ==> s.r1[i] <= |s.slots|)
    && (forall j :: 0 <= j < cfg.matchShards ==> s.mt[j] <= s.journaled)
    && (forall i, j :: 0 <= i < cfg.riskShards && 0 <= j < cfg.matchShards ==> s.r2[i] <= s.mt[j] <= s.r1[i])
  }

  // A shard inside a command has it matched, and stays within its legs.
  ghost predicate Legs(cfg: Config, s: State)
    requires Laid(cfg, s)
  {
    forall i :: 0 <= i < cfg.riskShards && s.leg[i] > 0 ==>
      && s.r2[i] < |s.slots| && s.leg[i] <= LegCount(s.slots[s.r2[i]])
      && forall j :: 0 <= j < cfg.matchShards ==> s.r2[i] < s.mt[j]
  }

  predicate Matched(cfg: Config, s: State, k: nat)
    requires Laid(cfg, s)
  {
    k < |s.slots| && k < s.mt[s.slots[k].marketId % cfg.matchShards]
  }

  predicate Admitted(cfg: Config, s: State, k: nat)
    requires Laid(cfg, s)
  {
    k < |s.slots| && k < s.r1[s.slots[k].userId % cfg.riskShards]
  }

  // The cursors after an action, whatever it does to commands and funds.
  function CursorsAfter(s: State, a: Action): State {
    match a
    case Publish(c) => s
    case Journal(_, _) => s.(journaled := s.journaled + 1)
    case Admit(i, _) => if i < |s.r1| then s.(r1 := Bump(s.r1, i)) else s
    case Trade(j) => if j < |s.mt| then s.(mt := Bump(s.mt, j)) else s
    case Settle(i) =>
      if i < |s.r2| && i < |s.leg| && s.r2[i] < |s.slots| then
        if Settleable(s.slots[s.r2[i]]) && s.leg[i] < LegCount(s.slots[s.r2[i]])
        then s.(leg := Bump(s.leg, i))
        else s.(r2 := Bump(s.r2, i), leg := s.leg[i := 0])
      else s
  }

  lemma CursorsMove(cfg: Config, s: State, a: Action)
    requires Enabled(cfg, s, a)
    ensures var t, u := Apply(cfg, s, a), CursorsAfter(s, a);
            && SameCursors(t, u)
            && |t.slots| == |s.slots| + (if a.Publish? then 1 else 0)
            && |t.books| == |s.books|
  {
    match a {
      case Publish(_) =>
      case Journal(_, _) =>
      case Admit(i, bestAsk) => AdmitMoves(cfg, s, i, bestAsk);
      case Trade(j) => TradeMoves(cfg, s, j);
      case Settle(i) => SettleMoves(cfg, s, i);
    }
  }

  predicate SameCursors(t: State, u: State) {
    t.journaled == u.journaled && t.r1 == u.r1 && t.mt == u.mt && t.r2 == u.r2 && t.leg == u.leg
  }

  lemma AdmitMoves(cfg: Config, s: State, i: nat, bestAsk: nat)
    requires Laid(cfg, s) && i < cfg.riskShards && s.r1[i] < |s.slots|
    ensures var t := ApplyAdmit(cfg, s, i, bestAsk);
            && SameCursors(t, s.(r1 := Bump(s.r1, i)))
            && |t.slots| == |s.slots| && t.books == s.books && t.bound == s.bound
  {
  }

  lemma TradeMoves(cfg: Config, s: State, j: nat)
    requires Laid(cfg, s) && j < cfg.matchShards && s.mt[j] < |s.slots|
    ensures var t := ApplyTrade(cfg, s, j);
            && SameCursors(t, s.(mt := Bump(s.mt, j)))
            && |t.slots| == |s.slots| && |t.books| == |s.books|
            && t.store == s.store && t.bound == s.bound && t.net == s.net
  {
  }

  lemma SettleMoves(cfg: Config, s: State, i: nat)
    requires Laid(cfg, s) && i < cfg.riskShards && s.r2[i] < |s.slots|
    ensures var t := ApplySettle(cfg, s, i);
            && SameCursors(t, CursorsAfter(s, Settle(i)))
            && t.slots == s.slots && t.books == s.books && t.bound == s.bound
  {
  }

  lemma SettleKeepsNet(cfg: Config, s: State, i: nat)
    requires Laid(cfg, s) && i < cfg.riskShards && s.r2[i] < |s.slots|
    ensures ApplySettle(cfg, s, i).net == s.net
  {
  }

  lemma CursorPair(cfg: Config, s: State, a: Action, i: nat, j: nat)
    requires Barriers(cfg, s) && Enabled(cfg, s, a) && i < cfg.riskShards && j < cfg.matchShards
    ensures var u := CursorsAfter(s, a);
            Laid(cfg, u) && u.r2[i] <= u.mt[j] <= u.r1[i] <= |s.slots| && u.mt[j] <= u.journaled <= |s.slots|
  {
    assert s.r2[i] <= s.mt[j] <= s.r1[i];
  }

  lemma CursorBarriers(cfg: Config, s: State, a: Action)
    requires Barriers(cfg, s) && Enabled(cfg, s, a)
    ensures var u := CursorsAfter(s, a);
            && Laid(cfg, u)
            && u.journaled <= |s.slots|
            && (forall i :: 0 <= i < cfg.riskShards ==> u.r1[i] <= |s.slots|)
            && (forall j :: 0 <= j < cfg.matchShards ==> u.mt[j] <= u.journaled)
            && (forall i, j :: 0 <= i < cfg.riskShards && 0 <= j < cfg.matchShards ==> u.r2[i] <= u.mt[j] <= u.r1[i])
  {
    CursorPair(cfg, s, a, 0, 0);
    var u := CursorsAfter(s, a);
    forall i, j | 0 <= i < cfg.riskShards && 0 <= j < cfg.matchShards
      ensures u.r2[i] <= u.mt[j] <= u.r1[i] && u.mt[j] <= u.journaled && u.r1[i] <= |s.slots|
    {
      CursorPair(cfg, s, a, i, j);
    }
    forall i | 0 <= i < cfg.riskShards
      ensures u.r1[i] <= |s.slots|
    {
      CursorPair(cfg, s, a, i, 0);
    }
    forall j | 0 <= j < cfg.matchShards
      ensures u.mt[j] <= u.journaled
    {
      CursorPair(cfg, s, a, 0, j);
    }
  }

  lemma BarriersKept(cfg: Config, s: State, a: Action)
    requires Barriers(cfg, s) && Enabled(cfg, s, a)
    ensures Barriers(cfg, Apply(cfg, s, a))
  {
    CursorsMove(cfg, s, a);
    CursorBarriers(cfg, s, a);
  }

  // Which slot an action may rewrite.
  function Touched(s: State, a: Action): nat {
    match a
    case Publish(_) => |s.slots|
    case Journal(_, _) => s.journaled
    case Admit(i, _) => if i < |s.r1| then s.r1[i] else 0
    case Trade(j) => if j < |s.mt| then s.mt[j] else 0
    case Settle(i) => if i < |s.r2| then s.r2[i] else 0
  }

  lemma OthersUntouched(cfg: Config, s: State, a: Action, k: nat)
    requires Enabled(cfg, s, a) && k < |s.slots| && k != Touched(s, a)
    ensures var t := Apply(cfg, s, a); k < |t.slots| && t.slots[k] == s.slots[k]
  {
    match a {
      case Settle(i) => SettleMoves(cfg, s, i);
      case Trade(j) => TradeRewrites(cfg, s, j);
      case _ =>
    }
  }

  // A router rewrites the slot it is at, if any.
  lemma TradeRewrites(cfg: Config, s: State, j: nat)
    requires Laid(cfg, s) && j < cfg.matchShards && s.mt[j] < |s.slots|
    ensures var t, k := ApplyTrade(cfg, s, j), s.mt[j];
            |t.slots| == |s.slots| && t.slots == s.slots[k := t.slots[k]]
  {
  }

  // The same for cursors alone: who is inside a command stays at it.
  lemma CursorLeg(cfg: Config, s: State, a: Action, i: nat)
    requires Barriers(cfg, s) && Legs(cfg, s) && Enabled(cfg, s, a) && i < cfg.riskShards
    ensures var u := CursorsAfter(s, a);
            && Laid(cfg, u)
            && (u.leg[i] > 0 ==>
                  && u.r2[i] == s.r2[i] < |s.slots| && u.leg[i] <= LegCount(s.slots[s.r2[i]])
                  && forall j :: 0 <= j < cfg.matchShards ==> s.r2[i] < s.mt[j] <= u.mt[j])
  {
    if a.Settle? && a.shard == i {
      assert CursorsAfter(s, a).leg[i] > 0 ==> LegCount(s.slots[s.r2[i]]) > s.leg[i];
    } else {
      assert CursorsAfter(s, a).leg[i] == s.leg[i];
    }
  }

  lemma LegKept(cfg: Config, s: State, a: Action, i: nat)
    requires Barriers(cfg, s) && Legs(cfg, s) && Enabled(cfg, s, a) && i < cfg.riskShards
    requires Barriers(cfg, Apply(cfg, s, a)) && Apply(cfg, s, a).leg[i] > 0
    ensures var t := Apply(cfg, s, a);
            && t.r2[i] < |t.slots| && t.leg[i] <= LegCount(t.slots[t.r2[i]])
            && forall j :: 0 <= j < cfg.matchShards ==> t.r2[i] < t.mt[j]
  {
    CursorsMove(cfg, s, a);
    CursorLeg(cfg, s, a, i);
    SettledUntouched(cfg, s, a, i);
  }

  lemma LegsKept(cfg: Config, s: State, a: Action)
    requires Barriers(cfg, s) && Legs(cfg, s) && Enabled(cfg, s, a)
    ensures Barriers(cfg, Apply(cfg, s, a)) && Legs(cfg, Apply(cfg, s, a))
  {
    BarriersKept(cfg, s, a);
    var t := Apply(cfg, s, a);
    forall i | 0 <= i < cfg.riskShards && t.leg[i] > 0
      ensures t.r2[i] < |t.slots| && t.leg[i] <= LegCount(t.slots[t.r2[i]])
      ensures forall j :: 0 <= j < cfg.matchShards ==> t.r2[i] < t.mt[j]
    {
      LegKept(cfg, s, a, i);
    }
  }

  // A command some second-stage shard is working on is rewritten by nobody.
  lemma SettledUntouched(cfg: Config, s: State, a: Action, i: nat)
    requires Barriers(cfg, s) && Enabled(cfg, s, a) && i < cfg.riskShards && s.r2[i] < |s.slots|
    requires forall j :: 0 <= j < cfg.matchShards ==> s.r2[i] < s.mt[j]
    ensures var t := Apply(cfg, s, a); s.r2[i] < |t.slots| && t.slots[s.r2[i]] == s.slots[s.r2[i]]
  {
    assert s.r2[i] < s.mt[0] <= s.journaled;
    match a {
      case Settle(_) =>
      case Admit(l, _) =>
        assert s.mt[0] <= s.r1[l];
      case _ =>
    }
  }

  // --- Commands -----------------------------------------------------------------------

  predicate HasSpec(cfg: Config, c: Command) {
    FindSpec(cfg.specs, c.marketId).Some?
  }

  predicate ReservedFits(cfg: Config, c: Command) {
    match FindSpec(cfg.specs, c.marketId)
    case None => false
    case Some(spec) => c.side == Bid ==> QuoteMath.Fits(spec, c.price, c.size)
  }

  // A command by the stage it has reached.
  predicate Waiting(c: Command) {
    Incoming(c)
  }

  predicate Accepted(cfg: Config, c: Command) {
    && c.events == []
    && match c.kind
       case PlaceOrder =>
         && 0 < c.size && c.price <= U64_MAX
         && (c.status == Rejected || (c.status == Processing && ReservedFits(cfg, c)))
       case CancelOrder => c.status == Processing
       case _ => c.status == Processed || c.status == Rejected
  }

  ghost predicate NoSelfTrade(c: Command) {
    forall e :: e in c.events ==> e.makerUser != c.userId
  }

  ghost predicate Executed(cfg: Config, c: Command) {
    && NoSelfTrade(c)
    && (Settleable(c) ==> HasSpec(cfg, c))
    && (c.kind == CancelOrder ==> c.events == [])
    && (c.kind == DepositFunds || c.kind == WithdrawFunds ==> !Settleable(c))
  }

  ghost predicate SlotOk(cfg: Config, s: State, k: nat)
    requires Laid(cfg, s) && k < |s.slots|
  {
    var c := s.slots[k];
    if Matched(cfg, s, k) then Executed(cfg, c)
    else if Admitted(cfg, s, k) then Accepted(cfg, c)
    else Waiting(c)
  }

  ghost predicate SlotsOk(cfg: Config, s: State)
    requires Laid(cfg, s)
  {
    forall k :: 0 <= k < |s.slots| ==> SlotOk(cfg, s, k)
  }

  lemma HomeInRange(n: nat, id: nat)
    requires n > 0
    ensures id % n < n
  {
  }

  // A step moves the stage of the touched slot only.
  lemma StagesElsewhere(cfg: Config, s: State, a: Action, k: nat)
    requires Barriers(cfg, s) && Enabled(cfg, s, a) && k < |s.slots| && k != Touched(s, a)
    ensures var t := Apply(cfg, s, a);
            && Laid(cfg, t) && k < |t.slots| && t.slots[k] == s.slots[k]
            && (Matched(cfg, t, k) <==> Matched(cfg, s, k))
            && (Admitted(cfg, t, k) <==> Admitted(cfg, s, k))
  {
    CursorsMove(cfg, s, a);
    OthersUntouched(cfg, s, a, k);
    HomeInRange(cfg.matchShards, s.slots[k].marketId);
    HomeInRange(cfg.riskShards, s.slots[k].userId);
  }

  // --- The rewritten command ------------------------------------------------------------

  lemma PreProcessAccepts(cfg: Config, s: State, c: Command, bestAsk: nat)
    requires Waiting(c) && ReservationFits(cfg, c, bestAsk)
    ensures var d := PreProcess(s.store, cfg.specs, c, bestAsk).1;
            && (d.status == Rejected || c.kind != PlaceOrder || d.price <= U64_MAX)
            && d.marketId == c.marketId && d.userId == c.userId && d.kind == c.kind && d.size == c.size
            && d.side == c.side && d.orderId == c.orderId
            && Accepted(cfg, d)
  {
  }

  lemma {:induction false} FindSpecIndex(specs: seq<QuoteMath.Spec>, market: nat)
    ensures match MarketIndex(specs, market)
            case None => FindSpec(specs, market) == None
            case Some(x) => x < |specs| && FindSpec(specs, market) == Some(specs[x]) && specs[x].market == market
  {
    if specs != [] && specs[0].market != market {
      FindSpecIndex(specs[1..], market);
    }
  }

  lemma ProcessExecutes(cfg: Config, b: PriceTime.Book, c: Command, bound: nat)
    requires BookLaws.GoodBook(b, bound) && Accepted(cfg, c) && HasSpec(cfg, c)
    ensures Executed(cfg, BookRuns.Process(b, c).cmd)
    ensures BookRuns.Process(b, c).cmd.marketId == c.marketId && BookRuns.Process(b, c).cmd.kind == c.kind
    ensures BookRuns.Process(b, c).cmd.orderId == c.orderId
    ensures c.kind == PlaceOrder ==> BookRuns.Process(b, c).cmd.userId == c.userId
  {
    match c.kind {
      case PlaceOrder =>
        if c.status != Rejected {
          PlaceFrame(b, c);
          PlaceExecutes(cfg, b, c, bound);
        }
      case CancelOrder => CancelExecutes(cfg, b, c);
      case _ =>
    }
  }

  // What no request ever changes.
  predicate Framed(c: Command, d: Command) {
    d.kind == c.kind && d.marketId == c.marketId && d.orderId == c.orderId && d.userId == c.userId
  }

  lemma ExecuteFrame(b: PriceTime.Book, c: Command)
    ensures Framed(c, PriceTime.Execute(b, c).cmd)
  {
    var (m, s) := PriceTime.Match(b, c);
    var done := c.(events := c.events + s.events, size := s.remaining);
    assert Framed(c, done);
  }

  lemma PlaceFrame(b: PriceTime.Book, c: Command)
    ensures Framed(c, PriceTime.Place(b, c).cmd)
  {
    ExecuteFrame(b, c);
  }

  lemma PlaceExecutes(cfg: Config, b: PriceTime.Book, c: Command, bound: nat)
    requires BookLaws.GoodBook(b, bound) && HasSpec(cfg, c)
    requires c.status == Processing && c.events == [] && 0 < c.size && c.kind == PlaceOrder
    ensures Executed(cfg, PriceTime.Place(b, c).cmd)
  {
    PlaceFrame(b, c);
    BookRuns.PlaceEvents(b, c);
    Matching.SweepTrades(PriceTime.TakerOf(c), b.Resting(c.side.Opposite()), c.size);
  }

  lemma CancelExecutes(cfg: Config, b: PriceTime.Book, c: Command)
    requires c.status == Processing && c.events == [] && c.kind == CancelOrder && HasSpec(cfg, c)
    ensures var d := PriceTime.Cancel(b, c).cmd;
            Executed(cfg, d) && d.kind == c.kind && d.marketId == c.marketId && d.orderId == c.orderId
  {
  }

  // --- Books ------------------------------------------------------------------------------

  ghost predicate FitBook(spec: QuoteMath.Spec, b: PriceTime.Book) {
    forall o :: o in b.bids ==> QuoteMath.Fits(spec, o.price, o.size)
  }

  // Journaled orders not yet matched, in the market of book x.
  predicate Pending(cfg: Config, s: State, x: nat, k: nat)
    requires Laid(cfg, s) && x < |cfg.specs|
  {
    && k < |s.slots| && k < s.journaled && !Matched(cfg, s, k)
    && s.slots[k].kind == PlaceOrder && s.slots[k].marketId == cfg.specs[x].market
  }

  ghost predicate BookOk(cfg: Config, s: State, x: nat)
    requires Laid(cfg, s) && x < |cfg.specs|
  {
    && BookLaws.GoodBook(s.books[x], s.bound)
    && BookLaws.NotCrossed(s.books[x])
    && FitBook(cfg.specs[x], s.books[x])
    && forall k: nat :: Pending(cfg, s, x, k) ==>
         && BookLaws.IdsBelow(s.books[x].bids, s.slots[k].orderId)
         && BookLaws.IdsBelow(s.books[x].asks, s.slots[k].orderId)
  }

  ghost predicate BooksOk(cfg: Config, s: State)
    requires Laid(cfg, s)
  {
    forall x :: 0 <= x < |cfg.specs| ==> BookOk(cfg, s, x)
  }

  // Ids of journaled orders increase along the log, below the generator.
  ghost predicate IdsOk(s: State) {
    && (forall k :: 0 <= k < |s.slots| && k < s.journaled && s.slots[k].kind == PlaceOrder ==>
          s.slots[k].orderId < s.bound)
    && (forall k, l :: 0 <= k < l < |s.slots| && l < s.journaled
                       && s.slots[k].kind == PlaceOrder && s.slots[l].kind == PlaceOrder ==>
                       s.slots[k].orderId < s.slots[l].orderId)
  }

  ghost predicate Sound(cfg: Config, s: State) {
    && GoodConfig(cfg) && Barriers(cfg, s) && Legs(cfg, s)
    && SlotsOk(cfg, s) && IdsOk(s) && BooksOk(cfg, s)
  }
}
