// The id generator. The clock is an input: `clock(p)` is what reading p of one
// monotonic clock gives, in nanoseconds since the Unix epoch. Every reading comes
// from it: the ticks of the ids, the deadline of a busy wait and the test whether
// that deadline has passed.
module Snowflakes {
  import Arithmetic
  import opened Shards
  import Orders

  const NODE_MAX: nat := 0xF
  const STEP_MAX: nat := 0xFFF
  const TIMESTAMP_MAX: nat := 0xFFFF_FFFF_FFFF
  const SEQUENCE_LIMIT: nat := 0x1_0000

  // Polls between two looks at the deadline, and how far ahead the deadline lies.
  const BATCH: nat := 64
  const PATIENCE: nat := 100_000

  datatype Error = MachineIdOutOfRange | SequenceOverflow | TimeBackwards | TimestampOverflow

  // NoAnswer: still waiting after as much of the clock as was looked at.
  datatype Reading = Tick(tick: nat) | NoTick(error: Error) | NoAnswer

  datatype Result = Id(id: nat) | Failed(error: Error) | Waiting

  datatype Generator = Generator(lastTick: nat, sequence: nat)

  // A call by one gateway: a busy wait of it polls `batch` times between two looks
  // at the deadline, and is followed for `fuel` batches.
  datatype Request = Request(gateway: nat, batch: nat, fuel: nat)

  // The generator after one call, its answer, and the next clock reading.
  datatype Answer = Answer(generator: Generator, result: Result, pos: nat)

  // --- Layout -------------------------------------------------------------------------

  function BitOr(a: nat, b: nat): nat {
    if a == 0 then b
    else if b == 0 then a
    else 2 * BitOr(a / 2, b / 2) + (if a % 2 == 1 || b % 2 == 1 then 1 else 0)
  }

  function ShiftLeft(x: nat, k: nat): nat { x * Pow2(k) }

  function ShiftRight(x: nat, k: nat): nat {
    Arithmetic.QuotientSign(x, Pow2(k));
    x / Pow2(k)
  }

  function CreateId(tick: nat, sequence: nat, gateway: nat): nat {
    BitOr(BitOr(ShiftLeft(tick, 16), ShiftLeft(sequence, 4)), gateway)
  }

  // Tick, node and sequence of an id.
  function ParseId(id: nat): (nat, nat, nat) {
    (BitAnd(ShiftRight(id, 16), TIMESTAMP_MAX), BitAnd(id, NODE_MAX), BitAnd(ShiftRight(id, 4), STEP_MAX))
  }

  function GatewayFromId(id: nat): nat { BitAnd(id, NODE_MAX) }

  // Fields that do not overlap are joined by addition.
  lemma {:induction false} OrIsSum(x: nat, k: nat, y: nat)
    requires y < Pow2(k)
    ensures BitOr(x * Pow2(k), y) == x * Pow2(k) + y
  {
    if k > 0 && x > 0 {
      var p := Pow2(k - 1);
      assert x * Pow2(k) == 2 * (x * p);
      assert (2 * (x * p)) / 2 == x * p && (2 * (x * p)) % 2 == 0;
      OrIsSum(x, k - 1, y / 2);
      if y == 0 {
        OrZero(x * Pow2(k));
      } else {
        Positive(x, Pow2(k));
      }
    } else if x == 0 {
      assert x * Pow2(k) == 0;
    } else {
      OrZero(x * Pow2(k));
    }
  }

  lemma Positive(x: nat, p: nat)
    requires x > 0 && p > 0
    ensures x * p > 0
  {
  }

  lemma OrZero(x: nat)
    ensures BitOr(x, 0) == x
  {
  }

  lemma PowersUsed()
    ensures Pow2(4) == 0x10 && Pow2(12) == 0x1000 && Pow2(16) == 0x1_0000 && Pow2(48) == 0x1_0000_0000_0000
  {
    assert Pow2(4) == 0x10;
    assert Pow2(8) == 0x100;
    assert Pow2(12) == 0x1000;
    assert Pow2(16) == 0x1_0000;
    assert Pow2(20) == 0x10_0000 && Pow2(24) == 0x100_0000;
    assert Pow2(28) == 0x1000_0000 && Pow2(32) == 0x1_0000_0000;
    assert Pow2(36) == 0x10_0000_0000 && Pow2(40) == 0x100_0000_0000;
    assert Pow2(44) == 0x1000_0000_0000;
  }

  predicate InRange(tick: nat, sequence: nat, gateway: nat) {
    tick <= TIMESTAMP_MAX && sequence <= STEP_MAX && gateway <= NODE_MAX
  }

  lemma IdLayout(tick: nat, sequence: nat, gateway: nat)
    requires InRange(tick, sequence, gateway)
    ensures CreateId(tick, sequence, gateway) == tick * 0x1_0000 + sequence * 0x10 + gateway
  {
    PowersUsed();
    OrIsSum(tick, 16, sequence * 0x10);
    var upper := tick * 0x1000 + sequence;
    assert tick * 0x1_0000 + sequence * 0x10 == upper * Pow2(4);
    OrIsSum(upper, 4, gateway);
  }

  // Parsing an id recovers what it was made of.
  lemma ParseRecovers(tick: nat, sequence: nat, gateway: nat)
    requires InRange(tick, sequence, gateway)
    ensures ParseId(CreateId(tick, sequence, gateway)) == (tick, gateway, sequence)
    ensures GatewayFromId(CreateId(tick, sequence, gateway)) == gateway
    ensures CreateId(tick, sequence, gateway) < 0x1_0000_0000_0000_0000
  {
    IdLayout(tick, sequence, gateway);
    FieldsOf(tick, sequence, gateway);
  }

  lemma FieldsOf(tick: nat, sequence: nat, gateway: nat)
    requires InRange(tick, sequence, gateway)
    ensures ParseId(tick * 0x1_0000 + sequence * 0x10 + gateway) == (tick, gateway, sequence)
  {
    var id := tick * 0x1_0000 + sequence * 0x10 + gateway;
    PowersUsed();
    assert id / 0x1_0000 == tick;
    assert id / 0x10 == tick * 0x1000 + sequence;
    MaskedField(tick, 48, TIMESTAMP_MAX, 0, tick);
    MaskedField(id, 4, NODE_MAX, tick * 0x1000 + sequence, gateway);
    MaskedField(id / 0x10, 12, STEP_MAX, tick, sequence);
  }

  // A mask of k low bits takes the lowest field.
  lemma MaskedField(x: nat, k: nat, mask: nat, upper: nat, field: nat)
    requires Pow2(k) == mask + 1 && field <= mask && x == (mask + 1) * upper + field
    ensures BitAnd(x, mask) == field
  {
    MaskIsRemainder(x, k);
    Arithmetic.Euclid(x, mask + 1, upper, field);
  }

  // --- Time ---------------------------------------------------------------------------

  function CurrentTick(epoch: nat, now: nat): Reading {
    if now < epoch then NoTick(TimeBackwards)
    else if (now - epoch) / 1024 > TIMESTAMP_MAX then NoTick(TimestampOverflow)
    else Tick((now - epoch) / 1024)
  }

  // A tick is 1024 nanoseconds since the epoch, and there are 2^48 of them.
  lemma TickIs(epoch: nat, now: nat)
    ensures match CurrentTick(epoch, now)
            case Tick(t) => 1024 * t <= now - epoch < 1024 * (t + 1) && now - epoch < 0x400_0000_0000_0000
            case NoTick(e) =>
              (e == TimeBackwards && now < epoch) || (e == TimestampOverflow && now - epoch >= 0x400_0000_0000_0000)
            case NoAnswer => false
  {
  }

  // The first of `polls` readings that is an error or a later tick, if any.
  function Poll(epoch: nat, clock: nat -> nat, pos: nat, polls: nat, last: nat): (Reading, nat)
    decreases polls
  {
    if polls == 0 then (NoAnswer, pos)
    else
      match CurrentTick(epoch, clock(pos))
      case Tick(t) => if t > last then (Tick(t), pos + 1) else Poll(epoch, clock, pos + 1, polls - 1, last)
      case error => (error, pos + 1)
  }

  // A busy wait: batches of polls, and after each a look at the deadline.
  function Wait(epoch: nat, clock: nat -> nat, pos: nat, batch: nat, fuel: nat, last: nat, deadline: nat)
    : (Reading, nat)
    decreases fuel
  {
    if fuel == 0 then (NoAnswer, pos)
    else
      var (r, p) := Poll(epoch, clock, pos, batch, last);
      if r != NoAnswer then (r, p)
      else if clock(p) > deadline then (NoTick(SequenceOverflow), p + 1)
      else Wait(epoch, clock, p + 1, batch, fuel - 1, last, deadline)
  }

  // The wait as it is called: the first reading fixes the deadline.
  function NextTick(epoch: nat, clock: nat -> nat, pos: nat, batch: nat, fuel: nat, last: nat): (Reading, nat) {
    Wait(epoch, clock, pos + 1, batch, fuel, last, clock(pos) + PATIENCE)
  }

  // One call, as a function of the state and the clock.
  function NextId(g: Generator, epoch: nat, clock: nat -> nat, pos: nat, r: Request): Answer {
    if r.gateway > NODE_MAX then Answer(g, Failed(MachineIdOutOfRange), pos)
    else
      match CurrentTick(epoch, clock(pos))
      case NoTick(e) => Answer(g, Failed(e), pos + 1)
      case NoAnswer => Answer(g, Waiting, pos + 1)
      case Tick(t) =>
        if t != g.lastTick then Answer(Generator(t, 0), Id(CreateId(t, 0, r.gateway)), pos + 1)
        else
          // A 16-bit counter that wraps.
          var next := (g.sequence + 1) % SEQUENCE_LIMIT;
          if next <= STEP_MAX then Answer(Generator(t, next), Id(CreateId(t, next, r.gateway)), pos + 1)
          else LaterId(Generator(t, next), epoch, clock, pos + 1, r)
  }

  // The rest of a call that has used up its tick: it waits for the next one.
  function LaterId(g: Generator, epoch: nat, clock: nat -> nat, pos: nat, r: Request): Answer {
    var (later, after) := NextTick(epoch, clock, pos, r.batch, r.fuel, g.lastTick);
    match later
    case NoTick(e) => Answer(g, Failed(e), after)
    case NoAnswer => Answer(g, Waiting, after)
    case Tick(u) => Answer(Generator(u, 0), Id(CreateId(u, 0, r.gateway)), after)
  }

  class Snowflake {
    const epoch: nat
    const clock: nat -> nat
    const batch: nat
    var lastTick: nat
    var sequence: nat
    var pos: nat

    function View(): Generator
      reads this
    {
      Generator(lastTick, sequence)
    }

    constructor (epoch: nat, clock: nat -> nat)
      ensures this.epoch == epoch && this.clock == clock && batch == 64 && View() == Generator(0, 0) && pos == 0
    {
      this.epoch, this.clock, batch := epoch, clock, BATCH;
      lastTick, sequence, pos := 0, 0, 0;
    }

    // Polls in batches and looks at the deadline between batches. The source
    // loops until it has an answer; here it is followed for `fuel` batches.
    method WaitNextTick(last: nat, fuel: nat) returns (r: Reading)
      modifies `pos
      ensures (r, pos) == NextTick(epoch, clock, old(pos), batch, fuel, last)
    {
      var deadline := clock(pos) + PATIENCE;
      pos := pos + 1;
      var round := 0;
      while round < fuel
        invariant round <= fuel
        invariant Wait(epoch, clock, old(pos) + 1, batch, fuel, last, deadline)
               == Wait(epoch, clock, pos, batch, fuel - round, last, deadline)
      {
        r := PollBatch(last);
        if r != NoAnswer {
          return;
        }
        var now := clock(pos);
        pos := pos + 1;
        if now > deadline {
          return NoTick(SequenceOverflow);
        }
        round := round + 1;
      }
      return NoAnswer;
    }

    method PollBatch(last: nat) returns (r: Reading)
      modifies `pos
      ensures (r, pos) == Poll(epoch, clock, old(pos), batch, last)
    {
      var i := 0;
      while i < batch
        invariant i <= batch
        invariant Poll(epoch, clock, old(pos), batch, last) == Poll(epoch, clock, pos, batch - i, last)
      {
        var current := CurrentTick(epoch, clock(pos));
        pos := pos + 1;
        if !current.Tick? || current.tick > last {
          return current;
        }
        i := i + 1;
      }
      return NoAnswer;
    }

    method Generate(gateway: nat, fuel: nat) returns (result: Result)
      modifies this
      ensures Answer(View(), result, pos) == NextId(old(View()), epoch, clock, old(pos), Request(gateway, batch, fuel))
    {
      if gateway > NODE_MAX {
        return Failed(MachineIdOutOfRange);
      }
      var current := CurrentTick(epoch, clock(pos));
      pos := pos + 1;
      if !current.Tick? {
        return ResultOf(current);
      }
      if current.tick == lastTick {
        sequence := (sequence + 1) % SEQUENCE_LIMIT;
        if sequence > STEP_MAX {
          result := GenerateLater(gateway, fuel);
          return;
        }
      } else {
        sequence := 0;
      }
      lastTick := current.tick;
      return Id(CreateId(current.tick, sequence, gateway));
    }

    // The branch of a call that has used up its tick.
    method GenerateLater(gateway: nat, fuel: nat) returns (result: Result)
      modifies this
      ensures Answer(View(), result, pos) == LaterId(old(View()), epoch, clock, old(pos), Request(gateway, batch, fuel))
    {
      var current := WaitNextTick(lastTick, fuel);
      if !current.Tick? {
        return ResultOf(current);
      }
      sequence := 0;
      lastTick := current.tick;
      return Id(CreateId(current.tick, sequence, gateway));
    }

    // A reading that is not a tick, as the result of the call.
    static function ResultOf(r: Reading): Result
      requires !r.Tick?
    {
      if r.NoTick? then Failed(r.error) else Waiting
    }
  }

  // --- Waiting ----------------------------------------------------------------------------

  ghost predicate NonDecreasing(clock: nat -> nat) {
    forall i: nat, j: nat :: i <= j ==> clock(i) <= clock(j)
  }

  lemma TickMono(epoch: nat, x: nat, y: nat)
    requires x <= y && CurrentTick(epoch, x).Tick? && CurrentTick(epoch, y).Tick?
    ensures CurrentTick(epoch, x).tick <= CurrentTick(epoch, y).tick
  {
    Arithmetic.DivMono(x - epoch, y - epoch, 1024);
  }

  // Once the clock has run out of ticks, it stays so.
  lemma NoTickStays(epoch: nat, x: nat, y: nat)
    requires x <= y && x >= epoch && !CurrentTick(epoch, x).Tick?
    ensures !CurrentTick(epoch, y).Tick?
  {
    Arithmetic.DivMono(x - epoch, y - epoch, 1024);
  }

  // The deadline lies many ticks ahead.
  lemma PatienceLeavesTick(epoch: nat, x: nat, y: nat)
    requires y > x + PATIENCE && CurrentTick(epoch, x).Tick? && CurrentTick(epoch, y).Tick?
    ensures CurrentTick(epoch, y).tick > CurrentTick(epoch, x).tick
  {
    Arithmetic.DivMono(x - epoch + 1024, y - epoch, 1024);
  }

  lemma {:induction false} PollLater(epoch: nat, clock: nat -> nat, pos: nat, polls: nat, last: nat)
    ensures var (r, after) := Poll(epoch, clock, pos, polls, last);
            && pos <= after
            && (r == NoAnswer ==> after == pos + polls)
            && (r != NoAnswer ==>
                  pos < after && CurrentTick(epoch, clock(after - 1)) == r && (r.Tick? ==> r.tick > last))
    decreases polls
  {
    if polls > 0 {
      PollLater(epoch, clock, pos + 1, polls - 1, last);
    }
  }

  // How a wait ends: with a reading, or with a look at the clock past the deadline.
  lemma {:induction false} WaitLater(epoch: nat, clock: nat -> nat, pos: nat, batch: nat, fuel: nat, last: nat,
                                     deadline: nat)
    ensures var (r, after) := Wait(epoch, clock, pos, batch, fuel, last, deadline);
            && pos <= after
            && (r != NoAnswer ==> pos < after)
            && (r.Tick? ==> r.tick > last && CurrentTick(epoch, clock(after - 1)) == r)
            && (r.NoTick? ==> CurrentTick(epoch, clock(after - 1)) == r || clock(after - 1) > deadline)
    decreases fuel
  {
    if fuel > 0 {
      PollLater(epoch, clock, pos, batch, last);
      var (r, p) := Poll(epoch, clock, pos, batch, last);
      WaitLater(epoch, clock, p + 1, batch, fuel - 1, last, deadline);
    }
  }

  // How many readings so many batches with a look each take.
  function Readings(looks: nat, batch: nat): nat {
    if looks == 0 then 0 else Readings(looks - 1, batch) + batch + 1
  }

  lemma {:induction false} ReadingsAre(looks: nat, batch: nat)
    ensures Readings(looks, batch) == looks * (batch + 1)
  {
    if looks > 0 {
      ReadingsAre(looks - 1, batch);
      Arithmetic.Distribute(looks - 1, 1, batch + 1);
    }
  }

  // A wait that gives up: it looked at the clock after every batch of polls, and its
  // last look is the first past the deadline.
  lemma {:induction false} WaitGivesUp(epoch: nat, clock: nat -> nat, pos: nat, batch: nat, fuel: nat, last: nat,
                                       deadline: nat)
    returns (looks: nat)
    requires batch > 0 && Wait(epoch, clock, pos, batch, fuel, last, deadline).0 == NoTick(SequenceOverflow)
    ensures looks > 0 && Wait(epoch, clock, pos, batch, fuel, last, deadline).1 == pos + Readings(looks, batch)
    ensures deadline < clock(pos + Readings(looks, batch) - 1)
    ensures looks > 1 ==> clock(pos + Readings(looks - 1, batch) - 1) <= deadline
    decreases fuel
  {
    PollLater(epoch, clock, pos, batch, last);
    TickIs(epoch, clock(Poll(epoch, clock, pos, batch, last).1 - 1));
    if clock(pos + batch) > deadline {
      looks := 1;
      assert Readings(1, batch) == batch + 1;
    } else {
      var more := WaitGivesUp(epoch, clock, pos + batch + 1, batch, fuel - 1, last, deadline);
      looks := more + 1;
      OneLookMore(more, batch);
    }
  }

  lemma OneLookMore(looks: nat, batch: nat)
    requires looks > 0
    ensures Readings(looks + 1, batch) == batch + 1 + Readings(looks, batch)
    ensures Readings(looks, batch) == batch + 1 + Readings(looks - 1, batch)
    ensures Readings(1, batch) == batch + 1
  {
    assert Readings(1, batch) == Readings(0, batch) + batch + 1;
  }

  // Its patience is 100 microseconds from its first reading, whatever the batch.
  lemma PatienceIs(epoch: nat, clock: nat -> nat, pos: nat, batch: nat, fuel: nat, last: nat) returns (looks: nat)
    requires batch > 0 && NextTick(epoch, clock, pos, batch, fuel, last).0 == NoTick(SequenceOverflow)
    ensures looks > 0 && NextTick(epoch, clock, pos, batch, fuel, last).1 == pos + 1 + looks * (batch + 1)
    ensures clock(pos) + 100_000 < clock(pos + looks * (batch + 1))
    ensures looks > 1 ==> clock(pos + (looks - 1) * (batch + 1)) <= clock(pos) + 100_000
  {
    looks := WaitGivesUp(epoch, clock, pos + 1, batch, fuel, last, clock(pos) + PATIENCE);
    ReadingsAre(looks, batch);
    ReadingsAre(looks - 1, batch);
  }

  // A wait that fails leaves its tick for good: no later reading has it.
  lemma FailedWaitLeaves(epoch: nat, clock: nat -> nat, pos: nat, batch: nat, fuel: nat, last: nat, p: nat)
    requires NonDecreasing(clock) && CurrentTick(epoch, clock(pos)) == Tick(last)
    requires NextTick(epoch, clock, pos + 1, batch, fuel, last).0.NoTick?
    requires p >= NextTick(epoch, clock, pos + 1, batch, fuel, last).1
    ensures CurrentTick(epoch, clock(p)) != Tick(last)
  {
    var deadline := clock(pos + 1) + PATIENCE;
    var (r, after) := NextTick(epoch, clock, pos + 1, batch, fuel, last);
    WaitLater(epoch, clock, pos + 2, batch, fuel, last, deadline);
    assert clock(pos) <= clock(pos + 1) && clock(pos) <= clock(after - 1) <= clock(p);
    if CurrentTick(epoch, clock(p)).Tick? {
      if CurrentTick(epoch, clock(after - 1)) == r {
        NoTickStays(epoch, clock(after - 1), clock(p));
      } else {
        PatienceLeavesTick(epoch, clock(pos), clock(p));
      }
    }
  }

  // --- Order ------------------------------------------------------------------------------

  // No reading still to come is before the generator's tick, and once the counter
  // has left its 12 bits, none is in it either.
  ghost predicate UpToDate(g: Generator, epoch: nat, clock: nat -> nat, pos: nat) {
    && g.lastTick <= TIMESTAMP_MAX
    && (forall p: nat :: p >= pos && CurrentTick(epoch, clock(p)).Tick? ==>
          CurrentTick(epoch, clock(p)).tick >= g.lastTick)
    && (g.sequence > STEP_MAX ==> forall p: nat :: p >= pos ==> CurrentTick(epoch, clock(p)) != Tick(g.lastTick))
  }

  // Every id issued so far is below this.
  function Ceiling(g: Generator): nat { g.lastTick * 0x1_0000 + (Orders.Min(g.sequence, STEP_MAX) + 1) * 0x10 }

  // An id is made of the state the call leaves behind.
  lemma NextLayout(g: Generator, epoch: nat, clock: nat -> nat, pos: nat, r: Request)
    requires NextId(g, epoch, clock, pos, r).result.Id?
    ensures var a := NextId(g, epoch, clock, pos, r);
            && InRange(a.generator.lastTick, a.generator.sequence, r.gateway)
            && a.result.id == a.generator.lastTick * 0x1_0000 + a.generator.sequence * 0x10 + r.gateway
  {
    var a := NextId(g, epoch, clock, pos, r);
    WaitEndsLater(g, epoch, clock, pos, r);
    IdLayout(a.generator.lastTick, a.generator.sequence, r.gateway);
  }

  // A call without an id: the gateway is above 15, or the clock shows no tick, or the
  // wait for the next tick failed.
  lemma WhyNoId(g: Generator, epoch: nat, clock: nat -> nat, pos: nat, r: Request)
    requires NextId(g, epoch, clock, pos, r).result.Failed?
    ensures var a := NextId(g, epoch, clock, pos, r);
            if r.gateway > 15 then
              a == Answer(g, Failed(MachineIdOutOfRange), pos)
            else if CurrentTick(epoch, clock(pos)).NoTick? then
              a == Answer(g, Failed(CurrentTick(epoch, clock(pos)).error), pos + 1)
            else
              var (wait, after) := NextTick(epoch, clock, pos + 1, r.batch, r.fuel, g.lastTick);
              CurrentTick(epoch, clock(pos)) == Tick(g.lastTick) && wait == NoTick(a.result.error) && a.pos == after
  {
  }

  // A gateway of four bits is never refused for its number.
  lemma GatewayServed(g: Generator, epoch: nat, clock: nat -> nat, pos: nat, r: Request)
    requires r.gateway <= 15
    ensures NextId(g, epoch, clock, pos, r).result != Failed(MachineIdOutOfRange)
  {
    WaitErrors(epoch, clock, pos + 2, r.batch, r.fuel, g.lastTick, clock(pos + 1) + PATIENCE);
  }

  lemma {:induction false} WaitErrors(epoch: nat, clock: nat -> nat, pos: nat, batch: nat, fuel: nat, last: nat,
                                      deadline: nat)
    ensures Wait(epoch, clock, pos, batch, fuel, last, deadline).0 != NoTick(MachineIdOutOfRange)
    decreases fuel
  {
    if fuel > 0 {
      PollLater(epoch, clock, pos, batch, last);
      WaitErrors(epoch, clock, Poll(epoch, clock, pos, batch, last).1 + 1, batch, fuel - 1, last, deadline);
    }
  }

  // What an id says: the gateway of the call, the tick of the last reading, and how
  // many ids that tick had before.
  lemma IdSays(g: Generator, epoch: nat, clock: nat -> nat, pos: nat, r: Request)
    requires UpToDate(g, epoch, clock, pos) && NextId(g, epoch, clock, pos, r).result.Id?
    ensures var a := NextId(g, epoch, clock, pos, r);
            var (tick, node, sequence) := ParseId(a.result.id);
            && node == r.gateway && a.pos > pos && CurrentTick(epoch, clock(a.pos - 1)) == Tick(tick)
            && sequence == if tick == g.lastTick then g.sequence + 1 else 0
  {
    IdParses(g, epoch, clock, pos, r);
    NextState(g, epoch, clock, pos, r);
    LastReading(g, epoch, clock, pos, r);
  }

  lemma IdParses(g: Generator, epoch: nat, clock: nat -> nat, pos: nat, r: Request)
    requires NextId(g, epoch, clock, pos, r).result.Id?
    ensures var a := NextId(g, epoch, clock, pos, r);
            ParseId(a.result.id) == (a.generator.lastTick, r.gateway, a.generator.sequence)
  {
    var a := NextId(g, epoch, clock, pos, r);
    NextLayout(g, epoch, clock, pos, r);
    FieldsOf(a.generator.lastTick, a.generator.sequence, r.gateway);
  }

  lemma LastReading(g: Generator, epoch: nat, clock: nat -> nat, pos: nat, r: Request)
    requires NextId(g, epoch, clock, pos, r).result.Id?
    ensures var a := NextId(g, epoch, clock, pos, r);
            a.pos > pos && CurrentTick(epoch, clock(a.pos - 1)) == Tick(a.generator.lastTick)
  {
    WaitEndsLater(g, epoch, clock, pos, r);
  }

  // What a wait of the call, if there is one, comes to.
  lemma WaitEndsLater(g: Generator, epoch: nat, clock: nat -> nat, pos: nat, r: Request)
    ensures CurrentTick(epoch, clock(pos)).Tick? ==>
              var last := CurrentTick(epoch, clock(pos)).tick;
              var (later, after) := NextTick(epoch, clock, pos + 1, r.batch, r.fuel, last);
              && pos + 1 < after
              && (later.Tick? ==> last < later.tick <= TIMESTAMP_MAX && CurrentTick(epoch, clock(after - 1)) == later)
  {
    if CurrentTick(epoch, clock(pos)).Tick? {
      WaitLater(epoch, clock, pos + 2, r.batch, r.fuel, CurrentTick(epoch, clock(pos)).tick, clock(pos + 1) + PATIENCE);
    }
  }

  // How the state moves: an id within the tick or in a later one, or none, with
  // nothing changed or the counter past its 12 bits.
  lemma NextState(g: Generator, epoch: nat, clock: nat -> nat, pos: nat, r: Request)
    requires UpToDate(g, epoch, clock, pos)
    ensures var a := NextId(g, epoch, clock, pos, r);
            var h := a.generator;
            && a.pos >= pos
            && if a.result.Id? then
                 || (h.lastTick == g.lastTick && h.sequence == g.sequence + 1 <= STEP_MAX)
                 || (h.lastTick > g.lastTick && h.sequence == 0)
               else h == g || (h == Generator(g.lastTick, STEP_MAX + 1) && g.sequence == STEP_MAX)
  {
    WaitEndsLater(g, epoch, clock, pos, r);
  }

  // The clock never overtakes the generator, and a call that was answered leaves
  // the counter within its 12 bits or the tick behind.
  lemma StaysUpToDate(g: Generator, epoch: nat, clock: nat -> nat, pos: nat, r: Request)
    requires NonDecreasing(clock) && UpToDate(g, epoch, clock, pos)
    requires !NextId(g, epoch, clock, pos, r).result.Waiting?
    ensures var a := NextId(g, epoch, clock, pos, r);
            UpToDate(a.generator, epoch, clock, a.pos)
  {
    var a := NextId(g, epoch, clock, pos, r);
    NextState(g, epoch, clock, pos, r);
    WaitEndsLater(g, epoch, clock, pos, r);
    if a.generator.lastTick != g.lastTick {
      forall p: nat | p >= a.pos && CurrentTick(epoch, clock(p)).Tick?
        ensures CurrentTick(epoch, clock(p)).tick >= a.generator.lastTick
      {
        TickMono(epoch, clock(a.pos - 1), clock(p));
      }
    } else if a.generator != g && a.result.Failed? {
      forall p: nat | p >= a.pos
        ensures CurrentTick(epoch, clock(p)) != Tick(g.lastTick)
      {
        FailedWaitLeaves(epoch, clock, pos, r.batch, r.fuel, g.lastTick, p);
      }
    }
  }

  // One call: an id lies between the old and the new ceiling.
  lemma StepOrdered(g: Generator, epoch: nat, clock: nat -> nat, pos: nat, r: Request)
    requires UpToDate(g, epoch, clock, pos)
    ensures var a := NextId(g, epoch, clock, pos, r);
            && Ceiling(a.generator) >= Ceiling(g)
            && (a.result.Id? ==> Ceiling(g) <= a.result.id < Ceiling(a.generator))
  {
    NextState(g, epoch, clock, pos, r);
    if NextId(g, epoch, clock, pos, r).result.Id? {
      NextLayout(g, epoch, clock, pos, r);
    }
  }

  // --- Runs -----------------------------------------------------------------------------------

  // The ids of a run of calls, also by a caller that goes on after errors; a call
  // that is never answered ends it.
  function Issued(g: Generator, epoch: nat, clock: nat -> nat, pos: nat, rs: seq<Request>): seq<nat>
    decreases |rs|
  {
    if rs == [] then []
    else
      var a := NextId(g, epoch, clock, pos, rs[0]);
      match a.result
      case Id(id) => [id] + Issued(a.generator, epoch, clock, a.pos, rs[1..])
      case Failed(_) => Issued(a.generator, epoch, clock, a.pos, rs[1..])
      case Waiting => []
  }

  ghost predicate Increasing(ids: seq<nat>) {
    forall i, j :: 0 <= i < j < |ids| ==> ids[i] < ids[j]
  }

  // For every clock that never runs back and every sequence of calls, the ids
  // increase strictly and start above what was issued before.
  lemma {:induction false} IdsIncrease(g: Generator, epoch: nat, clock: nat -> nat, pos: nat, rs: seq<Request>)
    requires NonDecreasing(clock) && UpToDate(g, epoch, clock, pos)
    ensures var ids := Issued(g, epoch, clock, pos, rs);
            Increasing(ids) && forall id :: id in ids ==> id >= Ceiling(g)
    decreases |rs|
  {
    if rs != [] {
      var a := NextId(g, epoch, clock, pos, rs[0]);
      StepOrdered(g, epoch, clock, pos, rs[0]);
      if !a.result.Waiting? {
        StaysUpToDate(g, epoch, clock, pos, rs[0]);
        IdsIncrease(a.generator, epoch, clock, a.pos, rs[1..]);
        if a.result.Id? {
          FirstLeast(a.result.id, Issued(a.generator, epoch, clock, a.pos, rs[1..]));
        }
      }
    }
  }

  lemma FirstLeast(id: nat, rest: seq<nat>)
    requires Increasing(rest) && forall x :: x in rest ==> x > id
    ensures Increasing([id] + rest)
  {
    var all := [id] + rest;
    forall i, j | 0 <= i < j < |all|
      ensures all[i] < all[j]
    {
      assert all[j] == rest[j - 1];
      assert rest[j - 1] in rest && (i > 0 ==> all[i] == rest[i - 1]);
    }
  }

  // From a new generator.
  lemma GeneratedIdsIncrease(epoch: nat, clock: nat -> nat, rs: seq<Request>)
    requires NonDecreasing(clock)
    ensures Increasing(Issued(Generator(0, 0), epoch, clock, 0, rs))
  {
    IdsIncrease(Generator(0, 0), epoch, clock, 0, rs);
  }

  // --- When a wait is answered -------------------------------------------------------------------

  // A clock that never leaves the tick keeps the wait going, however long.
  lemma {:induction false} StuckPoll(epoch: nat, clock: nat -> nat, pos: nat, polls: nat, last: nat)
    requires forall p: nat :: p >= pos ==> CurrentTick(epoch, clock(p)) == Tick(last)
    ensures Poll(epoch, clock, pos, polls, last) == (NoAnswer, pos + polls)
    decreases polls
  {
    if polls > 0 {
      StuckPoll(epoch, clock, pos + 1, polls - 1, last);
    }
  }

  lemma {:induction false} StuckWait(epoch: nat, clock: nat -> nat, pos: nat, batch: nat, fuel: nat, last: nat,
                                     deadline: nat)
    requires forall p: nat :: p >= pos ==> CurrentTick(epoch, clock(p)) == Tick(last) && clock(p) <= deadline
    ensures Wait(epoch, clock, pos, batch, fuel, last, deadline).0 == NoAnswer
    decreases fuel
  {
    if fuel > 0 {
      StuckPoll(epoch, clock, pos, batch, last);
      StuckWait(epoch, clock, pos + batch + 1, batch, fuel - 1, last, deadline);
    }
  }

  // All readings of one tick lie within the patience of a wait.
  lemma TickWithinPatience(epoch: nat, x: nat, y: nat)
    requires CurrentTick(epoch, x).Tick? && CurrentTick(epoch, x) == CurrentTick(epoch, y)
    ensures y <= x + PATIENCE
  {
    if y > x + PATIENCE {
      PatienceLeavesTick(epoch, x, y);
    }
  }

  // Once past the tick, the clock does not come back to it.
  lemma LeftForGood(epoch: nat, clock: nat -> nat, pos: nat, last: nat, q: nat, p: nat)
    requires NonDecreasing(clock) && CurrentTick(epoch, clock(pos)) == Tick(last)
    requires pos <= q <= p && CurrentTick(epoch, clock(q)) != Tick(last)
    ensures CurrentTick(epoch, clock(p)) != Tick(last)
    ensures CurrentTick(epoch, clock(p)).Tick? ==> CurrentTick(epoch, clock(p)).tick > last
  {
    assert clock(pos) <= clock(q) <= clock(p);
    if CurrentTick(epoch, clock(p)).Tick? {
      if CurrentTick(epoch, clock(q)).Tick? {
        TickMono(epoch, clock(pos), clock(q));
        TickMono(epoch, clock(q), clock(p));
      } else {
        NoTickStays(epoch, clock(q), clock(p));
      }
    }
  }

  // A wait followed past reading q, from which on the tick is over, is answered.
  lemma {:induction false} LeavingAnswers(epoch: nat, clock: nat -> nat, pos: nat, batch: nat, fuel: nat, last: nat,
                                          deadline: nat, q: nat)
    requires forall p: nat :: p >= q ==> !CurrentTick(epoch, clock(p)).Tick? || CurrentTick(epoch, clock(p)).tick > last
    requires batch > 0 && fuel > 0 && pos + fuel > q
    ensures Wait(epoch, clock, pos, batch, fuel, last, deadline).0 != NoAnswer
    decreases fuel
  {
    PollLater(epoch, clock, pos, batch, last);
    var (r, p) := Poll(epoch, clock, pos, batch, last);
    if r == NoAnswer && clock(p) <= deadline {
      LeavingAnswers(epoch, clock, p + 1, batch, fuel - 1, last, deadline, q);
    }
  }

  // The wait of a call whose first reading was at `pos` ends within `fuel` batches.
  predicate Answered(epoch: nat, clock: nat -> nat, pos: nat, batch: nat, fuel: nat, last: nat) {
    NextTick(epoch, clock, pos + 1, batch, fuel, last).0 != NoAnswer
  }

  // A wait comes to an end if and only if the clock ever leaves the tick: it spins
  // for ever on a clock that stands still.
  lemma WaitReturns(epoch: nat, clock: nat -> nat, pos: nat, batch: nat, last: nat)
    requires batch > 0
    requires NonDecreasing(clock) && CurrentTick(epoch, clock(pos)) == Tick(last)
    ensures (exists fuel: nat :: Answered(epoch, clock, pos, batch, fuel, last))
       <==> (exists q: nat :: q > pos && CurrentTick(epoch, clock(q)) != Tick(last))
  {
    var deadline := clock(pos + 1) + PATIENCE;
    if q: nat :| q > pos && CurrentTick(epoch, clock(q)) != Tick(last) {
      forall p: nat | p >= q
        ensures !CurrentTick(epoch, clock(p)).Tick? || CurrentTick(epoch, clock(p)).tick > last
      {
        LeftForGood(epoch, clock, pos, last, q, p);
      }
      LeavingAnswers(epoch, clock, pos + 2, batch, q + 1, last, deadline, q);
      assert Answered(epoch, clock, pos, batch, q + 1, last);
    } else {
      forall p: nat | p >= pos + 2
        ensures CurrentTick(epoch, clock(p)) == Tick(last) && clock(p) <= deadline
      {
        TickWithinPatience(epoch, clock(pos + 1), clock(p));
      }
      forall fuel: nat
        ensures !Answered(epoch, clock, pos, batch, fuel, last)
      {
        StuckWait(epoch, clock, pos + 2, batch, fuel, last, deadline);
      }
    }
  }
}
