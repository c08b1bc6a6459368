// The core one command at a time: all first-stage shards, the owning book, all
// second-stage shards. Two theorems live here: a replayed journal rebuilds the
// state, and a cancel undoes a place through all stages.
module CoreRuns {
  import opened Orders
  import opened PriceTime
  import opened BookLaws
  import opened BookRuns
  import opened MarketData
  import opened QuoteMath
  import opened Ledger
  import opened Shards
  import opened Pipeline
  import PipelineShape
  import opened Claims
  import C = Codec

  // Books and cached top-of-book prices, one per configured market, and balances.
  datatype Core = Core(books: seq<Book>, prices: seq<(nat, nat)>, store: Store)

  predicate Fitted(cfg: Config, core: Core) {
    |core.books| == |core.prices| == |cfg.specs| && cfg.riskShards > 0 && cfg.matchShards > 0
  }

  function CachedAsk(cfg: Config, core: Core, market: nat): nat {
    match MarketIndex(cfg.specs, market)
    case None => 0
    case Some(x) => if x < |core.prices| then core.prices[x].1 else 0
  }

  // The first n shards of the first stage, in turn.
  function FirstStage(cfg: Config, s: Store, c: Command, bestAsk: nat, n: nat): (Store, Command)
    requires cfg.riskShards > 0
  {
    if n == 0 then (s, c)
    else
      var (t, d) := FirstStage(cfg, s, c, bestAsk, n - 1);
      if Owns(cfg.riskShards, n - 1, d.userId) then PreProcess(t, cfg.specs, d, bestAsk) else (t, d)
  }

  // The first n shards of the second stage.
  function SecondStage(cfg: Config, s: Store, c: Command, n: nat): Store
    requires cfg.riskShards > 0
  {
    if n == 0 then s
    else PostProcess(SecondStage(cfg, s, c, n - 1), cfg.specs, cfg.riskShards, n - 1, c)
  }

  function TopOf(b: Book): (nat, nat) {
    (BestPrice(Bid, b.bids), BestPrice(Ask, b.asks))
  }

  // The matching stage: the book of the market, and its cached prices.
  function MatchStage(cfg: Config, core: Core, c: Command): (Core, Command) {
    if !ForBook(c) then (core, c)
    else
      match MarketIndex(cfg.specs, c.marketId)
      case None => (core, c.(status := Rejected))
      case Some(x) =>
        if x >= |core.books| || x >= |core.prices| then (core, c)
        else
          var r := Process(core.books[x], c);
          (core.(books := core.books[x := r.book], prices := core.prices[x := TopOf(r.book)]), r.cmd)
  }

  function Step(cfg: Config, core: Core, c: Command): Core
    requires cfg.riskShards > 0
  {
    var (s, d) := FirstStage(cfg, core.store, c, CachedAsk(cfg, core, c.marketId), cfg.riskShards);
    var (matched, e) := MatchStage(cfg, core.(store := s), d);
    matched.(store := SecondStage(cfg, matched.store, e, cfg.riskShards))
  }

  function Steps(cfg: Config, core: Core, cmds: seq<Command>): Core
    requires cfg.riskShards > 0
    decreases |cmds|
  {
    if cmds == [] then core else Steps(cfg, Step(cfg, core, cmds[0]), cmds[1..])
  }

  // --- One owner does the work of a stage ---------------------------------------------

  lemma PreProcessUser(s: Store, specs: seq<Spec>, c: Command, bestAsk: nat)
    ensures PreProcess(s, specs, c, bestAsk).1.userId == c.userId
  {
  }

  lemma {:induction false} FirstStageOnce(cfg: Config, s: Store, c: Command, bestAsk: nat, n: nat)
    requires PowerOfTwo(cfg.riskShards)
    ensures FirstStage(cfg, s, c, bestAsk, n)
         == if c.userId % cfg.riskShards < n then PreProcess(s, cfg.specs, c, bestAsk) else (s, c)
  {
    if n > 0 {
      FirstStageOnce(cfg, s, c, bestAsk, n - 1);
      PreProcessUser(s, cfg.specs, c, bestAsk);
      OneOwner(cfg.riskShards, c.userId);
    }
  }

  // Without trades the second stage is at most one release.
  lemma {:induction false} SecondStageOnce(cfg: Config, s: Store, c: Command, n: nat)
    requires PowerOfTwo(cfg.riskShards) && c.events == []
    ensures SecondStage(cfg, s, c, n)
         == if c.userId % cfg.riskShards < n && Settleable(c) && ReleaseDue(c) then Release(s, cfg.specs, c).store
           else s
  {
    if n > 0 {
      SecondStageOnce(cfg, s, c, n - 1);
      OneOwner(cfg.riskShards, c.userId);
    }
  }

  // --- Only journaled fields matter ------------------------------------------------------

  // Two commands that differ only in fields that are not journaled.
  predicate Alike(c: Command, d: Command) {
    c.events == d.events && C.OnWire(c) == C.OnWire(d)
  }

  lemma MatchOnWire(b: Book, c: Command, d: Command)
    requires Alike(c, d)
    ensures Match(b, c) == Match(b, d) && CanFill(b, c) == CanFill(b, d)
  {
    assert TakerOf(c) == TakerOf(d) && c.size == d.size && c.side == d.side;
  }

  lemma ExecuteOnWire(b: Book, c: Command, d: Command)
    requires Alike(c, d)
    ensures Execute(b, c).book == Execute(b, d).book && Alike(Execute(b, c).cmd, Execute(b, d).cmd)
  {
    MatchOnWire(b, c, d);
    var (m, s) := Match(b, c);
    RestOnWire(m, c, d, s.remaining);
  }

  lemma RestOnWire(b: Book, c: Command, d: Command, remaining: nat)
    requires Alike(c, d)
    ensures Rest(b, c, remaining) == Rest(b, d, remaining)
  {
    assert RestingOrder(c, remaining) == RestingOrder(d, remaining);
  }

  lemma PlaceOnWire(b: Book, c: Command, d: Command)
    requires Alike(c, d)
    ensures Place(b, c).book == Place(b, d).book && Alike(Place(b, c).cmd, Place(b, d).cmd)
  {
    ExecuteOnWire(b, c, d);
  }

  lemma CancelOnWire(b: Book, c: Command, d: Command)
    requires Alike(c, d)
    ensures Cancel(b, c).book == Cancel(b, d).book && Alike(Cancel(b, c).cmd, Cancel(b, d).cmd)
  {
  }

  // What the book does depends on the command only through fields on the wire.
  lemma ProcessOnWire(b: Book, c: Command, d: Command)
    requires Alike(c, d)
    ensures Process(b, c).book == Process(b, d).book && Alike(Process(b, c).cmd, Process(b, d).cmd)
  {
    PlaceOnWire(b, c, d);
    CancelOnWire(b, c, d);
  }

  lemma PreProcessOnWire(s: Store, specs: seq<Spec>, c: Command, d: Command, bestAsk: nat)
    requires Alike(c, d)
    ensures var (t, x), (u, y) := PreProcess(s, specs, c, bestAsk), PreProcess(s, specs, d, bestAsk);
            t == u && Alike(x, y)
  {
  }

  lemma {:induction false} WalkOnWire(s: Store, specs: seq<Spec>, shards: nat, shard: nat, c: Command, d: Command,
                                      from: nat)
    requires shards > 0 && Alike(c, d) && from <= LegCount(c)
    ensures Walk(s, specs, shards, shard, c, from) == Walk(s, specs, shards, shard, d, from)
    decreases LegCount(c) - from
  {
    if from < LegCount(c) {
      assert SettleLeg(s, specs, c, from) == SettleLeg(s, specs, d, from);
      var next := if Owns(shards, shard, LegUser(c, from)) then SettleLeg(s, specs, c, from).store else s;
      WalkOnWire(next, specs, shards, shard, c, d, from + 1);
    }
  }

  lemma {:induction false} SecondStageOnWire(cfg: Config, s: Store, c: Command, d: Command, n: nat)
    requires cfg.riskShards > 0 && Alike(c, d)
    ensures SecondStage(cfg, s, c, n) == SecondStage(cfg, s, d, n)
  {
    if n > 0 {
      SecondStageOnWire(cfg, s, c, d, n - 1);
      WalkOnWire(SecondStage(cfg, s, c, n - 1), cfg.specs, cfg.riskShards, n - 1, c, d, 0);
    }
  }

  lemma StepOnWire(cfg: Config, core: Core, c: Command, d: Command)
    requires PowerOfTwo(cfg.riskShards) && Alike(c, d)
    ensures Step(cfg, core, c) == Step(cfg, core, d)
  {
    var ask := CachedAsk(cfg, core, c.marketId);
    OneOwner(cfg.riskShards, c.userId);
    FirstStageOnce(cfg, core.store, c, ask, cfg.riskShards);
    FirstStageOnce(cfg, core.store, d, ask, cfg.riskShards);
    PreProcessOnWire(core.store, cfg.specs, c, d, ask);
    var (s, x) := PreProcess(core.store, cfg.specs, c, ask);
    var (_, y) := PreProcess(core.store, cfg.specs, d, ask);
    MatchStageOnWire(cfg, core.(store := s), x, y);
    var (m, e) := MatchStage(cfg, core.(store := s), x);
    var (_, f) := MatchStage(cfg, core.(store := s), y);
    SecondStageOnWire(cfg, m.store, e, f, cfg.riskShards);
  }

  lemma MatchStageOnWire(cfg: Config, core: Core, c: Command, d: Command)
    requires Alike(c, d)
    ensures var (m, e), (n, f) := MatchStage(cfg, core, c), MatchStage(cfg, core, d);
            m == n && Alike(e, f)
  {
    if ForBook(c) && MarketIndex(cfg.specs, c.marketId).Some? {
      var x := MarketIndex(cfg.specs, c.marketId).value;
      if x < |core.books| {
        ProcessOnWire(core.books[x], c, d);
      }
    }
  }

  // --- Replay ------------------------------------------------------------------------------

  // A command that has been through the first stage, put through it again with its
  // status set back, comes to the same end: the price a market buy was reserved at
  // is reserved again.
  lemma FirstStageRepeats(s: Store, specs: seq<Spec>, c: Command, bestAsk: nat)
    requires c.status == Processing
    ensures var d := PreProcess(s, specs, c, bestAsk).1;
            PreProcess(s, specs, d.(status := Processing), bestAsk) == PreProcess(s, specs, c, bestAsk)
  {
  }

  // The journal record of a command. Journaling and the first stage run at the
  // same time, so the record may be taken before the first stage or after it.
  function Record(cfg: Config, core: Core, c: Command, late: bool): seq<C.Byte> {
    C.Message(if late then Admission(cfg, core, c) else c)
  }

  function Records(cfg: Config, core: Core, cmds: seq<Command>, late: seq<bool>): seq<seq<C.Byte>>
    requires cfg.riskShards > 0 && |late| == |cmds|
    decreases |cmds|
  {
    if cmds == [] then []
    else [Record(cfg, core, cmds[0], late[0])] + Records(cfg, Step(cfg, core, cmds[0]), cmds[1..], late[1..])
  }

  // Replay decodes each record and submits it as a new command; what cannot be
  // decoded is dropped.
  function Replay(cfg: Config, core: Core, records: seq<seq<C.Byte>>): Core
    requires cfg.riskShards > 0
    decreases |records|
  {
    if records == [] then core
    else
      var next :=
        if |records[0]| < C.MESSAGE_LENGTH then core
        else
          match C.Decode(records[0])
          case Err(_) => core
          case Ok(c) => Step(cfg, core, c.(status := Processing));
      Replay(cfg, next, records[1..])
  }

  predicate Live(c: Command) {
    c.status == Processing && c.events == [] && C.Encodable(c)
  }

  lemma RecordReplays(cfg: Config, core: Core, c: Command, late: bool)
    requires PowerOfTwo(cfg.riskShards) && Live(c)
    ensures var r := Record(cfg, core, c, late);
            && |r| == C.MESSAGE_LENGTH && C.Decode(r).Ok?
            && Step(cfg, core, C.Decode(r).cmd.(status := Processing)) == Step(cfg, core, c)
  {
    var ask := CachedAsk(cfg, core, c.marketId);
    var d := PreProcess(core.store, cfg.specs, c, ask).1;
    var image := if late then d else c;
    FirstStageKeeps(core.store, cfg.specs, c, ask);
    C.DecodeEncoded(image, []);
    assert C.Message(image) + [] == C.Message(image);
    var again := d.(status := Processing);
    StepOnWire(cfg, core, C.Decode(Record(cfg, core, c, late)).cmd.(status := Processing), if late then again else c);
    if late {
      FirstStageRepeats(core.store, cfg.specs, c, ask);
      OneOwner(cfg.riskShards, c.userId);
      FirstStageOnce(cfg, core.store, c, ask, cfg.riskShards);
      FirstStageOnce(cfg, core.store, again, ask, cfg.riskShards);
    }
  }

  lemma FirstStageKeeps(s: Store, specs: seq<Spec>, c: Command, bestAsk: nat)
    requires Live(c)
    ensures var d := PreProcess(s, specs, c, bestAsk).1;
            && d.events == [] && C.Encodable(d) && d.marketId == c.marketId && d.userId == c.userId
  {
  }

  // Replaying the journal of any run, from the state the run began in, rebuilds
  // its books, its cached prices and its balances, whichever of the two came
  // first for each command.
  lemma {:induction false} ReplayRebuilds(cfg: Config, core: Core, cmds: seq<Command>, late: seq<bool>)
    requires PowerOfTwo(cfg.riskShards) && |late| == |cmds|
    requires forall c :: c in cmds ==> Live(c)
    ensures Replay(cfg, core, Records(cfg, core, cmds, late)) == Steps(cfg, core, cmds)
    decreases |cmds|
  {
    if cmds != [] {
      var records := Records(cfg, core, cmds, late);
      RecordReplays(cfg, core, cmds[0], late[0]);
      ReplayRebuilds(cfg, Step(cfg, core, cmds[0]), cmds[1..], late[1..]);
      assert records[1..] == Records(cfg, Step(cfg, core, cmds[0]), cmds[1..], late[1..]);
    }
  }

  // --- The price cache -------------------------------------------------------------------------

  // Cached prices are the greatest bid and the least ask of their books.
  ghost predicate CacheTrue(cfg: Config, core: Core) {
    && Fitted(cfg, core)
    && forall x :: 0 <= x < |core.books| ==> core.prices[x] == TopOf(core.books[x])
  }

  predicate Arriving(c: Command, bound: nat) {
    && c.status == Processing && c.events == []
    && (c.kind == PlaceOrder ==> 0 < c.size && c.price <= U64_MAX && bound <= c.orderId)
  }

  function BoundAfter(c: Command, bound: nat): nat {
    if c.kind == PlaceOrder then c.orderId + 1 else bound
  }

  predicate ArrivingRun(cmds: seq<Command>, bound: nat)
    decreases |cmds|
  {
    cmds == [] || (Arriving(cmds[0], bound) && ArrivingRun(cmds[1..], BoundAfter(cmds[0], bound)))
  }

  ghost predicate GoodCore(cfg: Config, core: Core, bound: nat) {
    CacheTrue(cfg, core) && forall x :: 0 <= x < |core.books| ==> GoodBook(core.books[x], bound)
  }

  lemma PreProcessArrives(s: Store, specs: seq<Spec>, c: Command, bestAsk: nat, bound: nat)
    requires Arriving(c, bound)
    ensures var d := PreProcess(s, specs, c, bestAsk).1;
            && (d.kind == PlaceOrder ==> FreshOrder(d, bound) && bound <= d.orderId)
            && d.orderId == c.orderId && d.kind == c.kind
  {
  }

  lemma ProcessStaysGood(b: Book, c: Command, bound: nat)
    requires GoodBook(b, bound) && (c.kind == PlaceOrder ==> FreshOrder(c, bound))
    ensures GoodBook(Process(b, c).book, if c.kind == PlaceOrder && c.orderId >= bound then c.orderId + 1 else bound)
  {
    if c.kind == PlaceOrder {
      PlaceGood(b, c, bound);
      if c.status == Rejected && c.orderId >= bound {
        Widen(b, bound, c.orderId + 1);
      }
    } else if c.kind == CancelOrder {
      CancelGood(b, c, bound);
    }
  }

  lemma MatchStageGood(cfg: Config, core: Core, c: Command, bound: nat)
    requires GoodCore(cfg, core, bound) && (c.kind == PlaceOrder ==> FreshOrder(c, bound) && bound <= c.orderId)
    ensures GoodCore(cfg, MatchStage(cfg, core, c).0, BoundAfter(c, bound))
  {
    var after := MatchStage(cfg, core, c).0;
    forall y | 0 <= y < |after.books|
      ensures GoodBook(after.books[y], BoundAfter(c, bound))
    {
      Widen(core.books[y], bound, BoundAfter(c, bound));
      ProcessStaysGood(core.books[y], c, bound);
    }
  }

  lemma StepGood(cfg: Config, core: Core, c: Command, bound: nat)
    requires PowerOfTwo(cfg.riskShards) && GoodCore(cfg, core, bound) && Arriving(c, bound)
    ensures GoodCore(cfg, Step(cfg, core, c), BoundAfter(c, bound))
  {
    var ask := CachedAsk(cfg, core, c.marketId);
    OneOwner(cfg.riskShards, c.userId);
    FirstStageOnce(cfg, core.store, c, ask, cfg.riskShards);
    PreProcessArrives(core.store, cfg.specs, c, ask, bound);
    var (s, d) := PreProcess(core.store, cfg.specs, c, ask);
    MatchStageGood(cfg, core.(store := s), d, bound);
  }

  lemma {:induction false} StepsGood(cfg: Config, core: Core, cmds: seq<Command>, bound: nat)
    returns (last: nat)
    requires PowerOfTwo(cfg.riskShards) && GoodCore(cfg, core, bound) && ArrivingRun(cmds, bound)
    ensures GoodCore(cfg, Steps(cfg, core, cmds), last)
    decreases |cmds|
  {
    last := bound;
    if cmds != [] {
      StepGood(cfg, core, cmds[0], bound);
      last := StepsGood(cfg, Step(cfg, core, cmds[0]), cmds[1..], BoundAfter(cmds[0], bound));
    }
  }

  // After any run the cached prices of every market are what a scan of its whole
  // book finds, with 0 and the greatest word for an empty side.
  lemma CacheIsScan(cfg: Config, core: Core, cmds: seq<Command>, bound: nat, x: nat)
    requires PowerOfTwo(cfg.riskShards) && GoodCore(cfg, core, bound) && ArrivingRun(cmds, bound)
    requires x < |core.books|
    ensures var after := Steps(cfg, core, cmds);
            && |after.books| == |after.prices| == |core.books|
            && after.prices[x] == (ScanBest(Bid, after.books[x].bids), ScanBest(Ask, after.books[x].asks))
  {
    var last := StepsGood(cfg, core, cmds, bound);
    var b := Steps(cfg, core, cmds).books[x];
    BestPriceIsBest(Bid, b.bids);
    BestPriceIsBest(Ask, b.asks);
  }

  // So the first stage pads the least ask there is.
  lemma PaddedAskIsScan(cfg: Config, core: Core, cmds: seq<Command>, bound: nat, x: nat)
    requires GoodConfig(cfg) && GoodCore(cfg, core, bound) && ArrivingRun(cmds, bound) && x < |core.books|
    ensures var after := Steps(cfg, core, cmds);
            && |after.books| == |core.books|
            && CachedAsk(cfg, after, cfg.specs[x].market) == ScanBest(Ask, after.books[x].asks)
  {
    CacheIsScan(cfg, core, cmds, bound, x);
    IndexOf(cfg.specs, x);
  }

  lemma {:induction false} IndexOf(specs: seq<Spec>, x: nat)
    requires x < |specs| && forall i, j :: 0 <= i < j < |specs| ==> specs[i].market != specs[j].market
    ensures MarketIndex(specs, specs[x].market) == Some(x)
  {
    if x > 0 {
      assert specs[1..][x - 1] == specs[x];
      IndexOf(specs[1..], x - 1);
    }
  }

  // Every snapshot a command carries away from its book is true of that book.
  lemma SnapshotsTrue(b: Book, c: Command, bound: nat)
    requires GoodBook(b, bound) && (c.kind == PlaceOrder ==> FreshOrder(c, bound)) && c.l2Data == None
    ensures var r := Process(b, c);
            && (r.cmd.l2Data.Some? <==>
                  && c.status != Rejected
                  && (c.kind == PlaceOrder || (c.kind == CancelOrder && c.orderId in b.index)))
            && (r.cmd.l2Data.Some? ==>
                  var l2 := r.cmd.l2Data.value;
                  && TrueDepth(Bid, r.book.bids, l2.bidPrices, l2.bidVolumes)
                  && TrueDepth(Ask, r.book.asks, l2.askPrices, l2.askVolumes))
  {
    var r := Process(b, c);
    ProcessStaysGood(b, c, bound);
    if r.cmd.l2Data.Some? {
      SnapshotTrue(r.book, if c.kind == PlaceOrder && c.orderId >= bound then c.orderId + 1 else bound);
      SnapshotSource(b, c);
    }
  }

  lemma SnapshotSource(b: Book, c: Command)
    requires c.l2Data == None && Process(b, c).cmd.l2Data.Some?
    ensures Process(b, c).cmd.l2Data == Some(Snapshot(Process(b, c).book))
  {
  }

  // --- Cancel undoes place ------------------------------------------------------------------------

  // Same books, same cached prices, same balances for every user and asset.
  ghost predicate Restored(before: Core, after: Core) {
    && after.books == before.books && after.prices == before.prices
    && forall key :: Get(after.store, key) == Get(before.store, key)
  }

  // The command as the first stage hands it on.
  function Admission(cfg: Config, core: Core, c: Command): Command {
    PreProcess(core.store, cfg.specs, c, CachedAsk(cfg, core, c.marketId)).1
  }

  // What the first stage did to an order it accepted: it fixed the price and
  // locked what the order holds at that price.
  lemma AdmissionLocks(cfg: Config, core: Core, c: Command, x: nat)
    requires MarketIndex(cfg.specs, c.marketId) == Some(x)
    requires c.kind == PlaceOrder && c.status == Processing && c.price <= U64_MAX
             && Admission(cfg, core, c).status == Processing
    ensures x < |cfg.specs|
    ensures var d, spec := Admission(cfg, core, c), cfg.specs[x];
            var held := Held(spec, d.side, d.price, d.size);
            && d == c.(price := d.price) && d.price <= U64_MAX
            && FindSpec(cfg.specs, c.marketId) == Some(spec)
            && Get(core.store, HeldKey(d)).available >= held
            && PreProcess(core.store, cfg.specs, c, CachedAsk(cfg, core, c.marketId)).0
               == LockFunds(core.store, HeldKey(d), held).store
  {
    PipelineShape.FindSpecIndex(cfg.specs, c.marketId);
  }

  // A resting order on its way through the three stages.
  lemma PlaceStep(cfg: Config, core: Core, c: Command, x: nat, bound: nat)
    requires PowerOfTwo(cfg.riskShards) && Fitted(cfg, core) && MarketIndex(cfg.specs, c.marketId) == Some(x)
    requires c.kind == PlaceOrder && c.status == Processing && c.tif == Gtc && FreshOrder(c, bound)
    requires Admission(cfg, core, c).status == Processing
    requires x < |core.books| && GoodBook(core.books[x], bound)
    requires EligibleVolume(TakerOf(Admission(cfg, core, c)), core.books[x].Resting(c.side.Opposite())) == 0
    ensures var d := Admission(cfg, core, c);
            var placed := Place(core.books[x], d).book;
            Step(cfg, core, c) == Core(core.books[x := placed], core.prices[x := TopOf(placed)],
                                       LockFunds(core.store, HeldKey(d),
                                         Held(cfg.specs[x], d.side, d.price, d.size)).store)
  {
    var ask, b := CachedAsk(cfg, core, c.marketId), core.books[x];
    OneOwner(cfg.riskShards, c.userId);
    FirstStageOnce(cfg, core.store, c, ask, cfg.riskShards);
    AdmissionLocks(cfg, core, c, x);
    var (s, d) := PreProcess(core.store, cfg.specs, c, ask);
    var e := Place(b, d).cmd;
    QuietPlace(b, d);
    PlaceEvents(b, d);
    PlaceConserves(b, d);
    assert e.events == [] && e.size == d.size && e.status == Placed;
    SecondStageOnce(cfg, s, e, cfg.riskShards);
  }

  // A cancel that finds its order releases what the order holds.
  lemma CancelStep(cfg: Config, core: Core, k: Command, x: nat)
    requires PowerOfTwo(cfg.riskShards) && Fitted(cfg, core) && MarketIndex(cfg.specs, k.marketId) == Some(x)
    requires k.kind == CancelOrder && k.status == Processing && k.events == [] && x < |core.books|
    ensures var r := Cancel(core.books[x], k);
            Step(cfg, core, k) == Core(core.books[x := r.book], core.prices[x := TopOf(r.book)],
                                       if r.cmd.status == Cancelled then Release(core.store, cfg.specs, r.cmd).store
                                       else core.store)
  {
    var ask, b := CachedAsk(cfg, core, k.marketId), core.books[x];
    FirstStageOnce(cfg, core.store, k, ask, cfg.riskShards);
    PipelineShape.FindSpecIndex(cfg.specs, k.marketId);
    var r := Cancel(b, k);
    assert r.cmd.events == [];
    OneOwner(cfg.riskShards, r.cmd.userId);
    SecondStageOnce(cfg, core.store, r.cmd, cfg.riskShards);
  }

  // What is available and what is locked of a balance fit a machine word together.
  predicate InWord(b: Balance) {
    b.available + b.locked <= U64_MAX
  }

  lemma LockThenRelease(s: Store, key: Key, amount: nat, k: Key)
    requires Get(s, key).available >= amount && InWord(Get(s, key))
    ensures Get(UnlockFunds(LockFunds(s, key, amount).store, key, amount).store, k) == Get(s, k)
  {
    LockMoves(s, key, amount);
    var b := Get(s, key);
    var held := Balance(b.available - amount, b.locked + amount);
    var locked := s[key := held];
    GetUpdated(s, key, held, key);
    GetUpdated(s, key, held, k);
    UnlockMoves(locked, key, amount);
    GetUpdated(locked, key, Balance(b.available, b.locked), k);
  }

  // An order that is accepted and finds no one to trade with, and a cancel of it.
  ghost predicate Idle(cfg: Config, core: Core, c: Command, k: Command, x: nat, bound: nat) {
    && PowerOfTwo(cfg.riskShards) && CacheTrue(cfg, core)
    && x < |core.books| && MarketIndex(cfg.specs, c.marketId) == Some(x) && GoodBook(core.books[x], bound)
    && c.kind == PlaceOrder && c.status == Processing && c.tif == Gtc && FreshOrder(c, bound)
    && Admission(cfg, core, c).status == Processing
    && EligibleVolume(TakerOf(Admission(cfg, core, c)), core.books[x].Resting(c.side.Opposite())) == 0
    && InWord(Get(core.store, HeldKey(c)))
    && k.kind == CancelOrder && k.status == Processing && k.events == []
    && k.orderId == c.orderId && k.marketId == c.marketId
  }

  // The two books of the story: with the order in it, and after the cancel.
  function AfterBoth(cfg: Config, core: Core, c: Command, k: Command, x: nat): Outcome
    requires x < |core.books|
  {
    Cancel(Place(core.books[x], Admission(cfg, core, c)).book, k)
  }

  function Locked(cfg: Config, core: Core, c: Command, x: nat): Store
    requires x < |cfg.specs|
  {
    var d := Admission(cfg, core, c);
    LockFunds(core.store, HeldKey(d), Held(cfg.specs[x], d.side, d.price, d.size)).store
  }

  lemma PlaceThenCancel(cfg: Config, core: Core, c: Command, k: Command, x: nat, bound: nat)
    requires Idle(cfg, core, c, k, x, bound)
    ensures var r, locked := AfterBoth(cfg, core, c, k, x), Locked(cfg, core, c, x);
            Step(cfg, Step(cfg, core, c), k)
            == Core(core.books[x := r.book], core.prices[x := TopOf(r.book)],
                    if r.cmd.status == Cancelled then Release(locked, cfg.specs, r.cmd).store else locked)
  {
    var placed := Place(core.books[x], Admission(cfg, core, c)).book;
    var middle := Core(core.books[x := placed], core.prices[x := TopOf(placed)], Locked(cfg, core, c, x));
    assert Step(cfg, core, c) == middle by {
      PlaceStep(cfg, core, c, x, bound);
    }
    CancelStep(cfg, middle, k, x);
    UpdatedTwice(core.books, x, placed, Cancel(placed, k).book);
    UpdatedTwice(core.prices, x, TopOf(placed), TopOf(Cancel(placed, k).book));
  }

  lemma UpdatedTwice<T>(s: seq<T>, x: nat, a: T, b: T)
    requires x < |s|
    ensures s[x := a][x := b] == s[x := b]
  {
  }

  // The command of the cancel names what the place has locked.
  lemma ReleasesTheHold(b: Book, spec: Spec, c: Command, k: Command, bound: nat)
    requires GoodBook(b, bound) && FreshOrder(c, bound) && c.status == Processing && c.tif == Gtc
    requires EligibleVolume(TakerOf(c), b.Resting(c.side.Opposite())) == 0
    requires k.status == Processing && k.orderId == c.orderId && k.marketId == c.marketId
    requires Cancel(Place(b, c).book, k).book == b
    ensures var d := Cancel(Place(b, c).book, k).cmd;
            && d.status == Cancelled && d.marketId == c.marketId && HeldKey(d) == HeldKey(c)
            && Held(spec, d.side, d.price, d.size) == Held(spec, c.side, c.price, c.size)
  {
    CancelUndoesPlace(b, c, k, bound);
    CancelMarket(Place(b, c).book, k);
  }

  lemma CancelMarket(b: Book, k: Command)
    ensures Cancel(b, k).cmd.marketId == k.marketId
  {
  }

  // Releasing what the place has locked restores every balance.
  lemma CancelRefunds(cfg: Config, core: Core, c: Command, k: Command, x: nat, bound: nat, key: Key)
    requires Idle(cfg, core, c, k, x, bound) && AfterBoth(cfg, core, c, k, x).book == core.books[x]
    ensures var r := AfterBoth(cfg, core, c, k, x).cmd;
            && r.status == Cancelled
            && Get(Release(Locked(cfg, core, c, x), cfg.specs, r).store, key) == Get(core.store, key)
  {
    var d, r := Admission(cfg, core, c), AfterBoth(cfg, core, c, k, x).cmd;
    var held, locked := Held(cfg.specs[x], d.side, d.price, d.size), Locked(cfg, core, c, x);
    AdmissionLocks(cfg, core, c, x);
    ReleasesTheHold(core.books[x], cfg.specs[x], d, k, bound);
    assert Release(locked, cfg.specs, r) == UnlockFunds(locked, HeldKey(d), held);
    LockThenRelease(core.store, HeldKey(d), held, key);
  }

  lemma AllRestored(cfg: Config, core: Core, c: Command, k: Command, x: nat, bound: nat, after: Core)
    requires Idle(cfg, core, c, k, x, bound) && AfterBoth(cfg, core, c, k, x).book == core.books[x]
    requires var r, locked := AfterBoth(cfg, core, c, k, x), Locked(cfg, core, c, x);
             after == Core(core.books[x := r.book], core.prices[x := TopOf(r.book)],
                           if r.cmd.status == Cancelled then Release(locked, cfg.specs, r.cmd).store else locked)
    ensures Restored(core, after)
  {
    var b := core.books[x];
    assert core.books[x := b] == core.books && core.prices[x := TopOf(b)] == core.prices;
    forall key
      ensures Get(after.store, key) == Get(core.store, key)
    {
      CancelRefunds(cfg, core, c, k, x, bound, key);
    }
  }

  // A good-till-cancelled order that is accepted and finds no one to trade with,
  // and then a cancel of it by whatever sender: books, cached prices and all
  // balances are as before, if and only if the order was a bid or no bid rests at
  // its price.
  lemma CancelRestores(cfg: Config, core: Core, c: Command, k: Command, x: nat, bound: nat)
    requires Idle(cfg, core, c, k, x, bound)
    ensures Restored(core, Step(cfg, Step(cfg, core, c), k))
       <==> c.side == Bid || !HasPrice(core.books[x].bids, c.price)
  {
    var b, d, after := core.books[x], Admission(cfg, core, c), Step(cfg, Step(cfg, core, c), k);
    AdmissionLocks(cfg, core, c, x);
    CancelUndoesPlace(b, d, k, bound);
    PlaceThenCancel(cfg, core, c, k, x, bound);
    if AfterBoth(cfg, core, c, k, x).book == b {
      AllRestored(cfg, core, c, k, x, bound, after);
    } else {
      assert after.books[x] != core.books[x];
    }
  }
}
